/** Chapter 4's snapshots and its `bump`: only the route moves, and its version tells its content. */
module Chapter4Snapshot {
  import opened Text
  import opened Maps
  import opened Config
  import opened DeltaModel
  import opened DeltaDiff
  import opened DeltaLedger
  import opened DeltaBodies
  import opened DeltaReplica
  import opened DeltaConvergence
  import opened DeltaSelection
  import opened DeltaServer

  const LISTENER_NAME := "primary_listener"
  const ROUTE_NAME := "primary_route"
  const CLUSTER_NAME := "upstream_cluster"

  function ListenerBody(): Any {
    Any(T_LISTENER, Listener(LISTENER_NAME, "ingress_http", ROUTE_NAME))
  }

  function ClusterBody(): Any {
    Any(T_CLUSTER, Cluster(CLUSTER_NAME, ""))
  }

  function EndpointsBody(ip: string): Any {
    Any(T_ENDPOINT, Endpoints(CLUSTER_NAME, [Backend(ip)]))
  }

  /** The route tags its responses with its own version. */
  function RouteBody(routeVersion: nat): Any {
    Any(T_ROUTE, Route(ROUTE_NAME, Some(VersionName(routeVersion)), CLUSTER_NAME))
  }

  function Built(routeVersion: nat, ip: string): Snapshot {
    Snapshot("sys-" + Decimal(routeVersion), map[
      T_LISTENER := map[LISTENER_NAME := Entry("v1", ListenerBody())],
      T_CLUSTER := map[CLUSTER_NAME := Entry("v1", ClusterBody())],
      T_ENDPOINT := map[CLUSTER_NAME := Entry("v1", EndpointsBody(ip))],
      T_ROUTE := map[ROUTE_NAME := Entry(VersionName(routeVersion), RouteBody(routeVersion))]])
  }

  /** One resource of each type under its name and type, all at `v1` but the route, which is at `v`. */
  ghost predicate Filed(snap: Snapshot, v: string) {
    && snap.byType.Keys == {T_LISTENER, T_ROUTE, T_CLUSTER, T_ENDPOINT}
    && snap.Of(T_LISTENER).Keys == {"primary_listener"} && snap.Of(T_ROUTE).Keys == {"primary_route"}
    && snap.Of(T_CLUSTER).Keys == {"upstream_cluster"} && snap.Of(T_ENDPOINT).Keys == {"upstream_cluster"}
    && (forall t, n :: n in snap.Of(t) ==>
          snap.Of(t)[n].body.typeUrl == t && snap.Of(t)[n].version == if t == T_ROUTE then v else "v1")
  }

  /** What a snapshot of route version `v` has to hold: besides being filed, the resources lead from the
      Listener to the upstream address, and the route announces `v` in the header that it adds. */
  ghost predicate Usable(snap: Snapshot, v: string, ip: string) {
    && Filed(snap, v)
    && var listener := snap.Of(T_LISTENER)["primary_listener"].body.message;
       var route := snap.Of(T_ROUTE)["primary_route"].body.message;
       var cluster := snap.Of(T_CLUSTER)["upstream_cluster"].body.message;
       var endpoints := snap.Of(T_ENDPOINT)["upstream_cluster"].body.message;
       && Leads(listener, route, cluster, endpoints, ip)
       && listener.name == "primary_listener" && route.name == "primary_route" && cluster.name == "upstream_cluster"
       && listener.statPrefix == "ingress_http"
       && route.configVersion == Some(v)
  }

  lemma BuiltIsFiled(routeVersion: nat, ip: string)
    ensures Filed(Built(routeVersion, ip), "v" + Decimal(routeVersion))
    ensures Built(routeVersion, ip).systemVersion == "sys-" + Decimal(routeVersion)
  {
    TypesDiffer();
    hide Decimal, T_LISTENER, T_ROUTE, T_CLUSTER, T_ENDPOINT;
    assert Built(routeVersion, ip).byType.Keys == {T_LISTENER, T_ROUTE, T_CLUSTER, T_ENDPOINT};
    assert Built(routeVersion, ip).systemVersion == "sys-" + Decimal(routeVersion);
    hide Built;
    forall t
      ensures forall n :: n in Built(routeVersion, ip).Of(t) ==>
                var e := Built(routeVersion, ip).Of(t)[n];
                e.body.typeUrl == t && e.version == if t == T_ROUTE then "v" + Decimal(routeVersion) else "v1"
    {
      OfBuilt(routeVersion, ip, t);
    }
    OfBuilt(routeVersion, ip, T_LISTENER);
    OfBuilt(routeVersion, ip, T_ROUTE);
    OfBuilt(routeVersion, ip, T_CLUSTER);
    OfBuilt(routeVersion, ip, T_ENDPOINT);
  }

  lemma BuiltIsUsable(routeVersion: nat, ip: string)
    ensures Usable(Built(routeVersion, ip), "v" + Decimal(routeVersion), ip)
    ensures Built(routeVersion, ip).systemVersion == "sys-" + Decimal(routeVersion)
  {
    BuiltIsFiled(routeVersion, ip);
    TypesDiffer();
    hide Built, Filed, Decimal, T_LISTENER, T_ROUTE, T_CLUSTER, T_ENDPOINT;
    OfBuilt(routeVersion, ip, T_LISTENER);
    OfBuilt(routeVersion, ip, T_ROUTE);
    OfBuilt(routeVersion, ip, T_CLUSTER);
    OfBuilt(routeVersion, ip, T_ENDPOINT);
  }

  method Build(routeVersion: nat, ip: string) returns (snap: Snapshot)
    ensures snap == Built(routeVersion, ip)
    ensures Usable(snap, "v" + Decimal(routeVersion), ip) && snap.systemVersion == "sys-" + Decimal(routeVersion)
  {
    BuiltIsUsable(routeVersion, ip);
    TypesDiffer();
    var byType: map<string, map<string, Entry>> := map[];
    byType := Put(byType, T_LISTENER, LISTENER_NAME, "v1", ListenerBody());
    byType := Put(byType, T_CLUSTER, CLUSTER_NAME, "v1", ClusterBody());
    byType := Put(byType, T_ENDPOINT, CLUSTER_NAME, "v1", EndpointsBody(ip));
    var rv := VersionName(routeVersion);
    byType := Put(byType, T_ROUTE, ROUTE_NAME, rv, RouteBody(routeVersion));
    snap := Snapshot("sys-" + Decimal(routeVersion), byType);
  }

  /** What the admin API shares with the streams. */
  class Control {
    const cell: WatchCell
    const upstreamIp: string
    var routeVersion: nat

    ghost predicate Valid()
      reads this, cell
    {
      cell.value == Built(routeVersion, upstreamIp)
    }

    constructor (upstreamIp: string)
      ensures Valid() && routeVersion == 1 && fresh(cell) && this.upstreamIp == upstreamIp
    {
      var first := Build(1, upstreamIp);
      this.upstreamIp := upstreamIp;
      routeVersion := 1;
      cell := new WatchCell(first);
    }

    /** Atomically: two bumps at the same time may publish in the other order, so it does not ask that
        the last route be the one advertised. */
    method Bump() returns (rv: nat)
      modifies this, cell
      ensures Valid() && rv == routeVersion == old(routeVersion) + 1
      ensures cell.writes == old(cell.writes) + 1
      ensures Usable(cell.value, "v" + Decimal(rv), upstreamIp)
    {
      rv := routeVersion + 1;
      routeVersion := rv;
      var snap := Build(rv, upstreamIp);
      cell.Send(snap);
    }
  }

  // ----- versions tell contents -----

  lemma OfBuilt(routeVersion: nat, ip: string, typeUrl: string)
    ensures Built(routeVersion, ip).Of(typeUrl) ==
            if typeUrl == T_LISTENER then map[LISTENER_NAME := Entry("v1", ListenerBody())]
            else if typeUrl == T_CLUSTER then map[CLUSTER_NAME := Entry("v1", ClusterBody())]
            else if typeUrl == T_ENDPOINT then map[CLUSTER_NAME := Entry("v1", EndpointsBody(ip))]
            else if typeUrl == T_ROUTE then map[ROUTE_NAME := Entry(VersionName(routeVersion), RouteBody(routeVersion))]
            else map[]
  {
    TypesDiffer();
  }

  /** A client that follows the references of a snapshot finds all it needs in it. */
  lemma GraphIsClosed(routeVersion: nat, ip: string)
    ensures Closed(Built(routeVersion, ip))
  {
    hide Built;
    TypesDiffer();
    OfBuilt(routeVersion, ip, T_ROUTE);
    OfBuilt(routeVersion, ip, T_CLUSTER);
    OfBuilt(routeVersion, ip, T_ENDPOINT);
    forall t, n | n in Built(routeVersion, ip).Of(t)
      ensures var body := Built(routeVersion, ip).Of(t)[n].body;
              && body.typeUrl == t && OwnName(body.message) == n
              && match Reference(body.message)
                 case None => true
                 case Some((type', name)) => name in Built(routeVersion, ip).Of(type')
    {
      OfBuilt(routeVersion, ip, t);
    }
  }

  /** For one upstream address, two snapshots give a resource the same version just when they give it
      the same body. */
  lemma VersionTellsBody(a: nat, b: nat, ip: string, typeUrl: string, name: string)
    requires name in Built(a, ip).Of(typeUrl) && name in Built(b, ip).Of(typeUrl)
    ensures var x, y := Built(a, ip).Of(typeUrl)[name], Built(b, ip).Of(typeUrl)[name];
            && (x.version == y.version <==> x.body == y.body)
            && (x.version == y.version <==> typeUrl != T_ROUTE || a == b)
  {
    OfBuilt(a, ip, typeUrl);
    OfBuilt(b, ip, typeUrl);
    VersionRoundTrip(a);
    VersionRoundTrip(b);
    TypesDiffer();
  }

  /** What a version of a resource means, read back from the version. */
  function BodyAt(ip: string, typeUrl: string, name: string, version: string): Any {
    if typeUrl == T_LISTENER then ListenerBody()
    else if typeUrl == T_CLUSTER then ClusterBody()
    else if typeUrl == T_ENDPOINT then EndpointsBody(ip)
    else RouteBody(VersionNumber(version))
  }

  function MeaningFor(ip: string): Meaning {
    (typeUrl: string, name: string, version: string) => BodyAt(ip, typeUrl, name, version)
  }

  lemma BuiltIsGenuine(routeVersion: nat, ip: string)
    ensures GenuineSnapshot(MeaningFor(ip), Built(routeVersion, ip))
  {
    forall t ensures Genuine(MeaningFor(ip), t, Built(routeVersion, ip).Of(t)) {
      OfBuilt(routeVersion, ip, t);
      VersionRoundTrip(routeVersion);
      TypesDiffer();
    }
  }

  /** All that is held comes from snapshots of this builder. */
  ghost predicate FromBumps(ip: string, holdings: map<string, Held>) {
    forall t, n :: n in HeldOf(holdings, t) ==>
      exists rv: nat :: n in Built(rv, ip).Of(t) && HeldOf(holdings, t)[n] == Built(rv, ip).Of(t)[n]
  }

  lemma FromBumpsIsGenuine(ip: string, holdings: map<string, Held>)
    requires FromBumps(ip, holdings)
    ensures GenuineHoldings(MeaningFor(ip), holdings)
  {
    forall t, n | n in HeldOf(holdings, t)
      ensures HeldOf(holdings, t)[n].body == MeaningFor(ip)(t, n, HeldOf(holdings, t)[n].version)
    {
      var rv: nat :| n in Built(rv, ip).Of(t) && HeldOf(holdings, t)[n] == Built(rv, ip).Of(t)[n];
      BuiltIsGenuine(rv, ip);
      assert Genuine(MeaningFor(ip), t, Built(rv, ip).Of(t));
    }
  }

  /** Whatever bumps are published, in whatever order: a client that started with what earlier bumps
      gave it holds at rest just the advertised resources, bodies and all, among the names it subscribes
      to. */
  lemma {:induction false} BumpsConverge(dialect: Dialect, ip: string, first: nat, writes: nat,
                      start: map<string, Held>, evs: seq<Event>, typeUrl: string, name: string)
    requires FromBumps(ip, start)
    requires forall i :: 0 <= i < |evs| && evs[i].Publish? ==> exists rv: nat :: evs[i].snap == Built(rv, ip)
    requires var s := After(dialect, Open(Built(first, ip), writes, start), evs);
             && s.phase.Idle? && s.seen == s.writes && s.delivered == |s.stream.log|
             && typeUrl in s.stream.subs && Selected(dialect, s.stream.Sub(typeUrl), name)
    ensures var s := After(dialect, Open(Built(first, ip), writes, start), evs);
            Lookup(HeldOf(s.held, typeUrl), name) == Lookup(s.value.Of(typeUrl), name)
  {
    hide After;
    BuiltIsGenuine(first, ip);
    FromBumpsIsGenuine(ip, start);
    forall i | 0 <= i < |evs| && evs[i].Publish? ensures GenuineSnapshot(MeaningFor(ip), evs[i].snap) {
      var rv: nat :| evs[i].snap == Built(rv, ip);
      BuiltIsGenuine(rv, ip);
    }
    BodiesConverge(MeaningFor(ip), dialect, Built(first, ip), writes, start, evs, typeUrl, name);
  }

  lemma {:induction false} LastBump(ip: string, first: nat, evs: seq<Event>)
    requires forall i :: 0 <= i < |evs| && evs[i].Publish? ==> exists rv: nat :: evs[i].snap == Built(rv, ip)
    ensures exists rv: nat :: LastPublished(Built(first, ip), evs) == Built(rv, ip)
  {
    if evs == [] {
      assert LastPublished(Built(first, ip), evs) == Built(first, ip);
    } else if !evs[|evs| - 1].Publish? {
      LastBump(ip, first, evs[..|evs| - 1]);
    }
  }

  /** Whatever bumps are published, in whatever order: a quiet client that selects the route holds one, and
      the version that its header announces is the version it is held at, and the one published last. */
  lemma {:induction false} HeaderIsVersion(dialect: Dialect, ip: string, first: nat, writes: nat,
                      start: map<string, Held>, evs: seq<Event>) returns (rv: nat)
    requires FromBumps(ip, start)
    requires forall i :: 0 <= i < |evs| && evs[i].Publish? ==> exists rv: nat :: evs[i].snap == Built(rv, ip)
    requires var s := After(dialect, Open(Built(first, ip), writes, start), evs);
             && s.phase.Idle? && s.seen == s.writes && s.delivered == |s.stream.log|
             && T_ROUTE in s.stream.subs && Selected(dialect, s.stream.Sub(T_ROUTE), "primary_route")
    ensures LastPublished(Built(first, ip), evs) == Built(rv, ip)
    ensures var s := After(dialect, Open(Built(first, ip), writes, start), evs);
            var held := HeldOf(s.held, T_ROUTE);
            && "primary_route" in held && held["primary_route"].version == "v" + Decimal(rv)
            && held["primary_route"].body.message.Route?
            && held["primary_route"].body.message.configVersion == Some(held["primary_route"].version)
  {
    hide After, Built, LastPublished, Selected;
    BumpsConverge(dialect, ip, first, writes, start, evs, T_ROUTE, "primary_route");
    AdvertisedIsLastPublished(dialect, Built(first, ip), writes, start, evs);
    LastBump(ip, first, evs);
    rv :| LastPublished(Built(first, ip), evs) == Built(rv, ip);
    BuiltIsUsable(rv, ip);
  }

  // ----- one bump, one resource -----

  predicate WantsRoute(dialect: Dialect, st: Stream) {
    T_ROUTE in st.subs && Matches(dialect, st.Sub(T_ROUTE), ROUTE_NAME)
  }

  function RouteDelta(st: Stream, routeVersion: nat): Delta {
    Delta(T_ROUTE, "sys-" + Decimal(routeVersion),
          map["primary_route" := Entry("v" + Decimal(routeVersion), Any(T_ROUTE,
            Route("primary_route", Some("v" + Decimal(routeVersion)), "upstream_cluster")))], {},
          "rds-" + Decimal(st.nonceCtr + 1))
  }

  ghost predicate AllSynced(dialect: Dialect, st: Stream, snap: Snapshot) {
    st.subs.Keys == st.sent.Keys && forall t :: t in st.subs ==> Synced(dialect, st, t, snap)
  }

  lemma OthersStaySynced(dialect: Dialect, st: Stream, a: nat, b: nat, ip: string, typeUrl: string)
    requires Synced(dialect, st, typeUrl, Built(a, ip)) && typeUrl != T_ROUTE
    ensures Synced(dialect, st, typeUrl, Built(b, ip))
  {
    OfBuilt(a, ip, typeUrl);
    OfBuilt(b, ip, typeUrl);
    forall n | Matches(dialect, st.Sub(typeUrl), n) ensures Agrees(st.Sent(typeUrl), Built(b, ip).Of(typeUrl), n) {
      assert Agrees(st.Sent(typeUrl), Built(a, ip).Of(typeUrl), n);
    }
  }

  /** What is due of the route to a stream that is synced with version `a`. */
  lemma RouteDue(dialect: Dialect, st: Stream, a: nat, b: nat, ip: string)
    requires Synced(dialect, st, T_ROUTE, Built(a, ip)) && a != b
    ensures var current := Built(b, ip).Of(T_ROUTE);
            && Vanished(dialect, st.Sub(T_ROUTE), st.Sent(T_ROUTE), current) == {}
            && Changed(dialect, st.Sub(T_ROUTE), st.Sent(T_ROUTE), current) ==
               (if Matches(dialect, st.Sub(T_ROUTE), ROUTE_NAME) then current else map[])
            && current == map[ROUTE_NAME := Entry(VersionName(b), RouteBody(b))]
  {
    hide Matches, Built, RouteBody, VersionName, VersionNumber;
    var sub, told, current := st.Sub(T_ROUTE), st.Sent(T_ROUTE), Built(b, ip).Of(T_ROUTE);
    OfBuilt(a, ip, T_ROUTE);
    OfBuilt(b, ip, T_ROUTE);
    VersionRoundTrip(a);
    VersionRoundTrip(b);
    TypesDiffer();
    assert current.Keys == {ROUTE_NAME} && current[ROUTE_NAME].version == VersionName(b) != VersionName(a);
    forall n | Matches(dialect, sub, n)
      ensures Lookup(told, n) == if n == ROUTE_NAME then Some(VersionName(a)) else None
    {
      assert Agrees(told, Built(a, ip).Of(T_ROUTE), n);
    }
  }

  lemma RouteNonce(counter: nat)
    ensures Nonce(T_ROUTE, counter) == "rds-" + Decimal(counter)
  {
    hide Nonce, Decimal;
    NonceParts(T_ROUTE, counter);
    var nonce := Nonce(T_ROUTE, counter);
    assert nonce == nonce[..4] + nonce[4..];
  }

  lemma RouteSend(dialect: Dialect, st: Stream, a: nat, b: nat, ip: string)
    requires T_ROUTE in st.subs && AllSynced(dialect, st, Built(a, ip)) && a != b
    ensures var st' := SendDelta(dialect, st, T_ROUTE, Built(b, ip));
            if WantsRoute(dialect, st)
            then st'.log == st.log + [RouteDelta(st, b)] && st'.nonceCtr == st.nonceCtr + 1 && st'.subs == st.subs
            else st' == st
  {
    RouteNonce(st.nonceCtr + 1);
    hide Matches, Synced, Changed, Vanished, Nonce, Decimal, T_ROUTE;
    RouteDue(dialect, st, a, b, ip);
    assert ROUTE_NAME in Built(b, ip).Of(T_ROUTE);
    assert st.subs[T_ROUTE := st.Sub(T_ROUTE)] == st.subs;
    assert st.sent[T_ROUTE := st.Sent(T_ROUTE)] == st.sent;
  }

  lemma {:induction false} BumpInOrder(dialect: Dialect, st: Stream, order: seq<string>, a: nat, b: nat, ip: string)
    requires AllSynced(dialect, st, Built(a, ip)) && a != b
    requires Distinct(order) && Elements(order) <= st.subs.Keys
    ensures SendAll(dialect, st, order, Built(b, ip)) ==
            if T_ROUTE in Elements(order) then SendDelta(dialect, st, T_ROUTE, Built(b, ip)) else st
  {
    hide SendDelta, Built, Synced;
    if order != [] {
      var before, t := order[..|order| - 1], order[|order| - 1];
      assert before + [t] == order;
      ElementsAppend(before, t);
      BumpInOrder(dialect, st, before, a, b, ip);
      var mid := SendAll(dialect, st, before, Built(b, ip));
      if t == T_ROUTE {
        assert T_ROUTE !in Elements(before);
      } else {
        OthersStaySynced(dialect, st, a, b, ip, t);
        SendKeepsOthers(dialect, st, T_ROUTE, Built(b, ip), t);
        SyncedFrame(dialect, st, mid, t, Built(b, ip));
        assert t in Elements(order);
        SyncedIsSilent(dialect, mid, t, Built(b, ip));
      }
    }
  }

  /** From a synced stream, any number of bumps seen as one change yields one response with the route
      alone if the stream wants the route, and no response otherwise. */
  lemma {:induction false} OneBumpOneResource(dialect: Dialect, st: Stream, order: seq<string>, a: nat, b: nat,
                                              ip: string)
    requires AllSynced(dialect, st, Built(a, ip)) && a < b
    requires Distinct(order) && Elements(order) == st.subs.Keys
    ensures SendAll(dialect, st, order, Built(b, ip)).log ==
            st.log + if WantsRoute(dialect, st) then [RouteDelta(st, b)] else []
  {
    BumpInOrder(dialect, st, order, a, b, ip);
    if T_ROUTE in st.subs {
      RouteSend(dialect, st, a, b, ip);
    }
  }
}
