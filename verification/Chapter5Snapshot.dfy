/** Chapter 5's names, `xdstp://authority/type/id`, and the collections that a trailing `*` selects. */
module Chapter5Snapshot {
  import opened Text
  import opened Config
  import opened DeltaModel
  import opened DeltaServer

  const AUTH_HW := "hardway"
  const AUTH_EDGE := "edge"
  const SCHEME := "xdstp://"

  /** `trim_start_matches`: the prefix is taken off as often as it occurs. */
  function TrimStart(s: string, prefix: string): (r: string)
    requires prefix != ""
    ensures !StartsWith(r, prefix) && EndsWith(s, r)
    ensures r != s ==> StartsWith(s, prefix)
  {
    if StartsWith(s, prefix) then TrimStart(s[|prefix|..], prefix) else s
  }

  /** The proto type of a type URL. */
  function Proto(typeUrl: string): string {
    TrimStart(typeUrl, TYPE_PREFIX)
  }

  function Xdstp(authority: string, typeUrl: string, id: string): string {
    SCHEME + authority + "/" + Proto(typeUrl) + "/" + id
  }

  predicate Segment(s: string) {
    '/' !in s
  }

  lemma FirstSlash(a: string, x: string, i: nat)
    requires Segment(a) && i <= |a|
    ensures (a + "/" + x)[i] == '/' <==> i == |a|
  {
    assert i < |a| ==> (a + "/" + x)[i] == a[i];
  }

  lemma SlashSplits(a: string, x: string, b: string, y: string)
    requires Segment(a) && Segment(b)
    requires StartsWith(a + "/" + x, b + "/" + y)
    ensures a == b && StartsWith(x, y)
  {
    var s, t := a + "/" + x, b + "/" + y;
    var i := if |a| <= |b| then |a| else |b|;
    FirstSlash(a, x, i);
    FirstSlash(b, y, i);
    assert s[i] == t[i];
    assert s[..|a|] == a && t[..|b|] == b;
    assert s[|a| + 1..] == x && t[|b| + 1..] == y;
  }

  /** Dropping the scheme keeps the prefix relation. */
  lemma SchemeDrops(x: string, y: string)
    requires StartsWith(SCHEME + x, SCHEME + y)
    ensures StartsWith(x, y)
  {
    forall i | 0 <= i < |y| ensures x[i] == y[i] {
      assert (SCHEME + x)[|SCHEME| + i] == x[i] && (SCHEME + y)[|SCHEME| + i] == y[i];
    }
  }

  lemma PathSplits(a: string, p: string, x: string, b: string, q: string, y: string)
    requires Segment(a) && Segment(b) && Segment(p) && Segment(q)
    ensures StartsWith(SCHEME + a + "/" + p + "/" + x, SCHEME + b + "/" + q + "/" + y) <==>
            a == b && p == q && StartsWith(x, y)
  {
    var s, t := a + "/" + (p + "/" + x), b + "/" + (q + "/" + y);
    assert SCHEME + a + "/" + p + "/" + x == SCHEME + s;
    assert SCHEME + b + "/" + q + "/" + y == SCHEME + t;
    if StartsWith(SCHEME + s, SCHEME + t) {
      SchemeDrops(s, t);
      SlashSplits(a, p + "/" + x, b, q + "/" + y);
      SlashSplits(p, x, q, y);
    }
    if a == b && p == q && StartsWith(x, y) {
      assert x == y + x[|y|..];
      assert SCHEME + s == SCHEME + t + x[|y|..];
    }
  }

  /** Different resources have different names, if neither authorities nor proto types contain `/`. */
  lemma XdstpIsInjective(a: string, t: string, id: string, a': string, t': string, id': string)
    requires Segment(a) && Segment(a') && Segment(Proto(t)) && Segment(Proto(t'))
    ensures Xdstp(a, t, id) == Xdstp(a', t', id') <==> a == a' && Proto(t) == Proto(t') && id == id'
  {
    PathSplits(a, Proto(t), id, a', Proto(t'), id');
    PathSplits(a', Proto(t'), id', a, Proto(t), id);
    if Xdstp(a, t, id) == Xdstp(a', t', id') {
      assert StartsWith(Xdstp(a, t, id), Xdstp(a', t', id')) && StartsWith(Xdstp(a', t', id'), Xdstp(a, t, id));
      assert id <= id' && id' <= id;
    }
  }

  function Collection(authority: string, proto: string): string {
    SCHEME + authority + "/" + proto + "/*"
  }

  /** A collection selects a resource just when the authority and the proto type are its own, whatever
      the id contains. */
  lemma CollectionsAreSeparated(authority: string, proto: string, a: string, t: string, id: string)
    requires Segment(authority) && Segment(proto) && Segment(a) && Segment(Proto(t))
    ensures Covers(Collection(authority, proto), Xdstp(a, t, id)) <==> a == authority && Proto(t) == proto
    ensures Matches(Glob, TypeSub(false, {Collection(authority, proto)}), Xdstp(a, t, id)) <==>
            a == authority && Proto(t) == proto
  {
    var c := Collection(authority, proto);
    var prefix := SCHEME + authority + "/" + proto + "/" + "";
    assert c == prefix + "*";
    assert StripStar(c) == Some(prefix) by {
      assert c[|c| - 1] == '*' && c[..|c| - 1] == prefix;
    }
    PathSplits(a, Proto(t), id, authority, proto, "");
    assert Xdstp(a, t, id) == SCHEME + a + "/" + Proto(t) + "/" + id;
  }

  // ----- the snapshot -----

  lemma TrimOnce(proto: string)
    requires proto != "" && proto[0] != 't'
    ensures Proto(TYPE_PREFIX + proto) == proto
  {
    var s := TYPE_PREFIX + proto;
    assert TYPE_PREFIX[0] == 't';
    assert !StartsWith(proto, TYPE_PREFIX);
    assert TrimStart(proto, TYPE_PREFIX) == proto;
    assert StartsWith(s, TYPE_PREFIX) && s[|TYPE_PREFIX|..] == proto;
    assert TrimStart(s, TYPE_PREFIX) == TrimStart(s[|TYPE_PREFIX|..], TYPE_PREFIX);
  }

  lemma ListenerProto()
    ensures Proto(T_LISTENER) == P_LISTENER && Segment(P_LISTENER)
  {
    assert P_LISTENER[0] == PACKAGE[0] == 'e';
    TrimOnce(P_LISTENER);
  }

  lemma RouteProto()
    ensures Proto(T_ROUTE) == P_ROUTE && Segment(P_ROUTE)
  {
    assert P_ROUTE[0] == PACKAGE[0] == 'e';
    TrimOnce(P_ROUTE);
  }

  lemma ClusterProto()
    ensures Proto(T_CLUSTER) == P_CLUSTER && Segment(P_CLUSTER)
  {
    assert P_CLUSTER[0] == PACKAGE[0] == 'e';
    TrimOnce(P_CLUSTER);
  }

  lemma EndpointProto()
    ensures Proto(T_ENDPOINT) == P_ENDPOINT && Segment(P_ENDPOINT)
  {
    assert P_ENDPOINT[0] == PACKAGE[0] == 'e';
    TrimOnce(P_ENDPOINT);
  }

  function LdsName(): string { Xdstp(AUTH_HW, T_LISTENER, "primary") }
  function RdsName(): string { Xdstp(AUTH_HW, T_ROUTE, "primary") }
  function CdsName(): string { Xdstp(AUTH_EDGE, T_CLUSTER, "upstream") }
  function EdsName(): string { Xdstp(AUTH_EDGE, T_ENDPOINT, "upstream") }

  function LdsBody(): Any { Any(T_LISTENER, Listener(LdsName(), "ingress_http", RdsName())) }
  function RdsBody(): Any { Any(T_ROUTE, Route(RdsName(), None, CdsName())) }
  function CdsBody(): Any { Any(T_CLUSTER, Cluster(CdsName(), EdsName())) }
  function EdsBody(ip: string): Any { Any(T_ENDPOINT, Endpoints(EdsName(), [Backend(ip)])) }

  function Built(ip: string): Snapshot {
    Snapshot("v1", map[
      T_LISTENER := map[LdsName() := Entry("v1", LdsBody())],
      T_ROUTE := map[RdsName() := Entry("v1", RdsBody())],
      T_CLUSTER := map[CdsName() := Entry("v1", CdsBody())],
      T_ENDPOINT := map[EdsName() := Entry("v1", EdsBody(ip))]])
  }

  lemma OfBuilt(ip: string, typeUrl: string)
    ensures Built(ip).Of(typeUrl) ==
            if typeUrl == T_LISTENER then map[LdsName() := Entry("v1", LdsBody())]
            else if typeUrl == T_ROUTE then map[RdsName() := Entry("v1", RdsBody())]
            else if typeUrl == T_CLUSTER then map[CdsName() := Entry("v1", CdsBody())]
            else if typeUrl == T_ENDPOINT then map[EdsName() := Entry("v1", EdsBody(ip))]
            else map[]
  {
    hide LdsName, RdsName, CdsName, EdsName;
    TypesDiffer();
  }

  /** A client that starts from the Listener walks the whole graph by xdstp names. */
  lemma GraphIsClosed(ip: string)
    ensures Closed(Built(ip))
  {
    hide Built, LdsName, RdsName, CdsName, EdsName;
    TypesDiffer();
    assert EdsName() != "" by {
      EdsNotEmpty();
    }
    OfBuilt(ip, T_ROUTE);
    OfBuilt(ip, T_CLUSTER);
    OfBuilt(ip, T_ENDPOINT);
    forall t, n | n in Built(ip).Of(t)
      ensures var body := Built(ip).Of(t)[n].body;
              && body.typeUrl == t && OwnName(body.message) == n
              && match Reference(body.message)
                 case None => true
                 case Some((type', name)) => name in Built(ip).Of(type')
    {
      OfBuilt(ip, t);
    }
  }

  lemma EdsNotEmpty()
    ensures EdsName() != ""
  {
    assert |SCHEME| == 8;
  }

  /** One resource of each type under its xdstp name and type, all at `v1`. */
  ghost predicate Filed(snap: Snapshot) {
    && snap.byType.Keys == {T_LISTENER, T_ROUTE, T_CLUSTER, T_ENDPOINT}
    && snap.Of(T_LISTENER).Keys == {"xdstp://" + "hardway" + "/" + P_LISTENER + "/" + "primary"}
    && snap.Of(T_ROUTE).Keys == {"xdstp://" + "hardway" + "/" + P_ROUTE + "/" + "primary"}
    && snap.Of(T_CLUSTER).Keys == {"xdstp://" + "edge" + "/" + P_CLUSTER + "/" + "upstream"}
    && snap.Of(T_ENDPOINT).Keys == {"xdstp://" + "edge" + "/" + P_ENDPOINT + "/" + "upstream"}
    && (forall t, n :: n in snap.Of(t) ==>
          && snap.Of(t)[n].body.typeUrl == t && snap.Of(t)[n].version == "v1"
          && OwnName(snap.Of(t)[n].body.message) == n)
  }

  /** What the snapshot has to hold: besides being filed, the resources lead from the Listener to the
      upstream address. */
  ghost predicate Usable(snap: Snapshot, ip: string) {
    && Filed(snap) && snap.systemVersion == "v1"
    && (forall l, r, c, e :: l in snap.Of(T_LISTENER) && r in snap.Of(T_ROUTE) && c in snap.Of(T_CLUSTER)
                             && e in snap.Of(T_ENDPOINT) ==>
          && Leads(snap.Of(T_LISTENER)[l].body.message, snap.Of(T_ROUTE)[r].body.message,
                   snap.Of(T_CLUSTER)[c].body.message, snap.Of(T_ENDPOINT)[e].body.message, ip)
          && snap.Of(T_LISTENER)[l].body.message.statPrefix == "ingress_http"
          && snap.Of(T_ROUTE)[r].body.message.configVersion == None)
  }

  lemma Names()
    ensures LdsName() == "xdstp://" + "hardway" + "/" + P_LISTENER + "/" + "primary"
    ensures RdsName() == "xdstp://" + "hardway" + "/" + P_ROUTE + "/" + "primary"
    ensures CdsName() == "xdstp://" + "edge" + "/" + P_CLUSTER + "/" + "upstream"
    ensures EdsName() == "xdstp://" + "edge" + "/" + P_ENDPOINT + "/" + "upstream"
  {
    hide Proto;
    ListenerProto();
    RouteProto();
    ClusterProto();
    EndpointProto();
  }

  lemma BuiltIsFiled(ip: string)
    ensures Filed(Built(ip))
  {
    Names();
    TypesDiffer();
    hide LdsName, RdsName, CdsName, EdsName;
    hide P_LISTENER, P_ROUTE, P_CLUSTER, P_ENDPOINT, T_LISTENER, T_ROUTE, T_CLUSTER, T_ENDPOINT;
    assert Built(ip).byType.Keys == {T_LISTENER, T_ROUTE, T_CLUSTER, T_ENDPOINT};
    hide Built;
    forall t
      ensures forall n :: n in Built(ip).Of(t) ==>
                var e := Built(ip).Of(t)[n];
                e.body.typeUrl == t && e.version == "v1" && OwnName(e.body.message) == n
    {
      OfBuilt(ip, t);
    }
    OfBuilt(ip, T_LISTENER);
    OfBuilt(ip, T_ROUTE);
    OfBuilt(ip, T_CLUSTER);
    OfBuilt(ip, T_ENDPOINT);
  }

  lemma BuiltIsUsable(ip: string)
    ensures Usable(Built(ip), ip)
  {
    BuiltIsFiled(ip);
    EdsNotEmpty();
    TypesDiffer();
    hide Filed, LdsName, RdsName, CdsName, EdsName, T_LISTENER, T_ROUTE, T_CLUSTER, T_ENDPOINT;
    assert Built(ip).systemVersion == "v1";
    hide Built;
    OfBuilt(ip, T_LISTENER);
    OfBuilt(ip, T_ROUTE);
    OfBuilt(ip, T_CLUSTER);
    OfBuilt(ip, T_ENDPOINT);
  }

  method Build(ip: string) returns (snap: Snapshot)
    ensures snap == Built(ip) && Usable(snap, ip)
  {
    BuiltIsUsable(ip);
    TypesDiffer();
    var byType: map<string, map<string, Entry>> := map[];
    byType := Put(byType, T_LISTENER, LdsName(), "v1", LdsBody());
    byType := Put(byType, T_ROUTE, RdsName(), "v1", RdsBody());
    byType := Put(byType, T_CLUSTER, CdsName(), "v1", CdsBody());
    byType := Put(byType, T_ENDPOINT, EdsName(), "v1", EdsBody(ip));
    snap := Snapshot("v1", byType);
  }

  /** What a client that holds nothing is sent when it subscribes to the collection. */
  function Collected(authority: string, typeUrl: string, ip: string): map<string, Entry> {
    Changed(Glob, TypeSub(false, {Collection(authority, Proto(typeUrl))}), map[], Built(ip).Of(typeUrl))
  }

  lemma OneCollected(authority: string, owner: string, typeUrl: string, id: string, ip: string)
    requires Segment(authority) && Segment(owner) && Segment(Proto(typeUrl))
    requires Built(ip).Of(typeUrl).Keys == {Xdstp(owner, typeUrl, id)}
    ensures Collected(authority, typeUrl, ip) == if authority == owner then Built(ip).Of(typeUrl) else map[]
  {
    hide Matches, Xdstp, Collection, Built;
    CollectionsAreSeparated(authority, Proto(typeUrl), owner, typeUrl, id);
  }

  /** Each authority's collections: Listener and Route belong to `hardway`, Cluster and Endpoints to `edge`,
      and a collection of any other authority is empty. */
  lemma BuiltCollections(authority: string, ip: string)
    requires Segment(authority)
    ensures forall t :: t in {T_LISTENER, T_ROUTE} ==>
              Collected(authority, t, ip) == if authority == AUTH_HW then Built(ip).Of(t) else map[]
    ensures forall t :: t in {T_CLUSTER, T_ENDPOINT} ==>
              Collected(authority, t, ip) == if authority == AUTH_EDGE then Built(ip).Of(t) else map[]
    ensures Proto(T_LISTENER) == P_LISTENER && Proto(T_ROUTE) == P_ROUTE
    ensures Proto(T_CLUSTER) == P_CLUSTER && Proto(T_ENDPOINT) == P_ENDPOINT
  {
    hide Collected, Xdstp, Proto, Built;
    ListenerProto();
    RouteProto();
    ClusterProto();
    EndpointProto();
    TypesDiffer();
    OfBuilt(ip, T_LISTENER);
    OfBuilt(ip, T_ROUTE);
    OfBuilt(ip, T_CLUSTER);
    OfBuilt(ip, T_ENDPOINT);
    OneCollected(authority, AUTH_HW, T_LISTENER, "primary", ip);
    OneCollected(authority, AUTH_HW, T_ROUTE, "primary", ip);
    OneCollected(authority, AUTH_EDGE, T_CLUSTER, "upstream", ip);
    OneCollected(authority, AUTH_EDGE, T_ENDPOINT, "upstream", ip);
  }
}
