/** Type URLs and resource messages shared by the chapters. A message keeps the fields that the
    builders vary or that refer to other resources; its encoding is not modelled. */
module Config {
  import opened Text

  const TYPE_PREFIX := "type.googleapis.com/"
  const PACKAGE := "envoy.config."
  const P_LISTENER := PACKAGE + "listener.v3.Listener"
  const P_ROUTE := PACKAGE + "route.v3." + "RouteConfiguration"
  const P_CLUSTER := PACKAGE + "cluster.v3.Cluster"
  const P_ENDPOINT := PACKAGE + "endpoint.v3." + "ClusterLoadAssignment"
  const T_LISTENER := TYPE_PREFIX + P_LISTENER
  const T_ROUTE := TYPE_PREFIX + P_ROUTE
  const T_CLUSTER := TYPE_PREFIX + P_CLUSTER
  const T_ENDPOINT := TYPE_PREFIX + P_ENDPOINT

  datatype Backend = Backend(ip: string)

  datatype Message =
    | Listener(name: string, statPrefix: string, routeName: string)
    | Route(name: string, configVersion: Option<string>, cluster: string)
    | Cluster(name: string, serviceName: string)
    | Endpoints(clusterName: string, backends: seq<Backend>)

  datatype Any = Any(typeUrl: string, message: Message)

  function ShortType(typeUrl: string): string {
    if EndsWith(typeUrl, ".Listener") then "LDS"
    else if EndsWith(typeUrl, ".RouteConfiguration") then "RDS"
    else if EndsWith(typeUrl, ".Cluster") then "CDS"
    else if EndsWith(typeUrl, ".ClusterLoadAssignment") then "EDS"
    else "???"
  }

  function Lowercase(short: string): string {
    match short
    case "LDS" => "lds"
    case "RDS" => "rds"
    case "CDS" => "cds"
    case "EDS" => "eds"
    case _ => short
  }

  // ----- the short names of the four types -----

  /** The last two characters can tell that a string has another ending. */
  lemma EndingDecides(front: string, a: char, b: char, suffix: string)
    requires |suffix| >= 2 && (suffix[|suffix| - 2] != a || suffix[|suffix| - 1] != b)
    ensures !EndsWith(front + [a, b], suffix)
  {
    var s := front + [a, b];
    assert |suffix| <= |s| ==>
             s[|s| - |suffix|..][|suffix| - 2] == a && s[|s| - |suffix|..][|suffix| - 1] == b;
  }

  lemma EndsAppend(front: string, suffix: string)
    ensures EndsWith(front + suffix, suffix)
  {
  }

  lemma ListenerShort()
    ensures Lowercase(ShortType(T_LISTENER)) == "lds"
  {
    assert T_LISTENER == TYPE_PREFIX + PACKAGE + "listener.v3" + ".Listener";
    EndsAppend(TYPE_PREFIX + PACKAGE + "listener.v3", ".Listener");
  }

  lemma RouteShort()
    ensures Lowercase(ShortType(T_ROUTE)) == "rds"
  {
    var front, tail := TYPE_PREFIX + PACKAGE + "route.v3", ".RouteConfigurati";
    assert ".RouteConfiguration" == "." + "RouteConfiguration" == tail + ['o', 'n'];
    assert T_ROUTE == front + ".RouteConfiguration" == front + tail + ['o', 'n'];
    hide EndsWith;
    EndsAppend(front, ".RouteConfiguration");
    EndingDecides(front + tail, 'o', 'n', ".Listener");
  }

  lemma ClusterShort()
    ensures Lowercase(ShortType(T_CLUSTER)) == "cds"
  {
    var front, tail := TYPE_PREFIX + PACKAGE + "cluster.v3", ".Clust";
    assert ".Cluster" == tail + ['e', 'r'];
    assert T_CLUSTER == front + ".Cluster" == front + tail + ['e', 'r'];
    hide EndsWith;
    EndsAppend(front, ".Cluster");
    EndingDecides(front + tail, 'e', 'r', ".RouteConfiguration");
    ClusterIsNoListener(front + ".Clu");
  }

  /** `Cluster` and `Listener` have their last two characters in common, and not the ones before. */
  lemma ClusterIsNoListener(front: string)
    ensures !EndsWith(front + "ster", ".Listener")
  {
    var s := front + "ster";
    assert 9 <= |s| ==> s[|s| - 9..][5] == 's';
  }

  lemma EndpointShort()
    ensures Lowercase(ShortType(T_ENDPOINT)) == "eds"
  {
    var front, tail := TYPE_PREFIX + PACKAGE + "endpoint.v3", ".ClusterLoadAssignme";
    assert ".ClusterLoadAssignment" == "." + "ClusterLoadAssignment" == tail + ['n', 't'];
    assert T_ENDPOINT == front + ".ClusterLoadAssignment" == front + tail + ['n', 't'];
    hide EndsWith;
    EndsAppend(front, ".ClusterLoadAssignment");
    EndingDecides(front + tail, 'n', 't', ".Listener");
    EndingDecides(front + tail, 'n', 't', ".RouteConfiguration");
    EndingDecides(front + tail, 'n', 't', ".Cluster");
  }

  /** The messages lead a client from the Listener over route and cluster to just the one address. */
  predicate Leads(listener: Message, route: Message, cluster: Message, endpoints: Message, ip: string) {
    && listener.Listener? && route.Route? && cluster.Cluster? && endpoints.Endpoints?
    && listener.routeName == route.name
    && route.cluster == cluster.name
    && (if cluster.serviceName == "" then cluster.name else cluster.serviceName) == endpoints.clusterName
    && endpoints.backends == [Backend(ip)]
  }

  lemma TypesDiffer()
    ensures T_LISTENER != T_ROUTE && T_LISTENER != T_CLUSTER && T_LISTENER != T_ENDPOINT
    ensures T_ROUTE != T_CLUSTER && T_ROUTE != T_ENDPOINT && T_CLUSTER != T_ENDPOINT
  {
    assert |T_LISTENER| == 53;
    assert |T_ROUTE| == 60;
    assert |T_CLUSTER| == 51;
    assert |T_ENDPOINT| == 66;
  }
}
