/** Chapter 2: versioned snapshots and the State-of-the-World side of one stream, as functions on
    values. */
module SotwModel {
  import opened Text
  import opened Maps
  import opened Config

  datatype Snapshot = Snapshot(version: string, byType: map<string, seq<Any>>)

  datatype Response = Response(versionInfo: string, resources: seq<Any>, typeUrl: string, nonce: string)

  datatype Request = Request(typeUrl: string, versionInfo: string, responseNonce: string, nack: bool)

  const LISTENER_NAME := "primary_listener"
  const ROUTE_NAME := "primary_route"
  const CLUSTER_NAME := "upstream_cluster"

  function Build(version: string, ip: string, broken: bool): Snapshot {
    Snapshot(version, map[
      T_LISTENER := [Any(T_LISTENER, Listener(LISTENER_NAME, if broken then "" else "ingress_http", ROUTE_NAME))],
      T_ROUTE := [Any(T_ROUTE, Route(ROUTE_NAME, None, CLUSTER_NAME))],
      T_CLUSTER := [Any(T_CLUSTER, Cluster(CLUSTER_NAME, ""))],
      T_ENDPOINT := [Any(T_ENDPOINT, Endpoints(CLUSTER_NAME, [Backend(ip)]))]])
  }

  /** The types that every snapshot has. */
  predicate Known(typeUrl: string) {
    typeUrl in {T_LISTENER, T_ROUTE, T_CLUSTER, T_ENDPOINT}
  }

  /** Envoy's validation: the connection manager of a Listener needs a stat prefix. */
  predicate Rejectable(resources: seq<Any>) {
    exists i :: 0 <= i < |resources| && resources[i].message.Listener? && resources[i].message.statPrefix == ""
  }

  predicate Broken(snap: Snapshot) {
    T_LISTENER in snap.byType && Rejectable(snap.byType[T_LISTENER])
  }

  lemma BuildFacts(version: string, ip: string, broken: bool)
    ensures Broken(Build(version, ip, broken)) <==> broken
    ensures Build(version, ip, broken).byType.Keys == {T_LISTENER, T_ROUTE, T_CLUSTER, T_ENDPOINT}
  {
    TypesDiffer();
    var resources := Build(version, ip, broken).byType[T_LISTENER];
    assert resources[0].message.statPrefix == if broken then "" else "ingress_http";
  }

  /** What a snapshot has to hold for a proxy: one resource of each type, filed under its type, that lead from
      the Listener to the upstream address. Only the stat prefix of a broken one differs. */
  ghost predicate Usable(snap: Snapshot, ip: string, broken: bool) {
    && snap.byType.Keys == {T_LISTENER, T_ROUTE, T_CLUSTER, T_ENDPOINT}
    && (forall t :: t in snap.byType ==> |snap.byType[t]| == 1 && snap.byType[t][0].typeUrl == t)
    && var listener, route := snap.byType[T_LISTENER][0].message, snap.byType[T_ROUTE][0].message;
       var cluster, endpoints := snap.byType[T_CLUSTER][0].message, snap.byType[T_ENDPOINT][0].message;
       && Leads(listener, route, cluster, endpoints, ip)
       && listener.name == "primary_listener" && route.name == "primary_route" && cluster.name == "upstream_cluster"
       && listener.statPrefix == (if broken then "" else "ingress_http")
       && route.configVersion == None
  }

  lemma BuildIsUsable(version: string, ip: string, broken: bool)
    ensures Usable(Build(version, ip, broken), ip, broken)
    ensures Build(version, ip, broken).version == version
  {
    TypesDiffer();
    BuildFacts(version, ip, broken);
  }

  /** A snapshot is rejected over its Listener or not at all, and every resource of a type is of it. */
  lemma OnlyListenersAreRejected(version: string, ip: string, broken: bool, typeUrl: string)
    requires Known(typeUrl)
    ensures var snap := Build(version, ip, broken);
            && typeUrl in snap.byType && snap.byType[typeUrl] != []
            && (forall i :: 0 <= i < |snap.byType[typeUrl]| ==> snap.byType[typeUrl][i].typeUrl == typeUrl)
            && (Rejectable(snap.byType[typeUrl]) <==> broken && typeUrl == T_LISTENER)
  {
    TypesDiffer();
    BuildFacts(version, ip, broken);
    assert typeUrl in Build(version, ip, broken).byType;
  }

  function Short(typeUrl: string): string {
    if typeUrl == T_LISTENER then "lds"
    else if typeUrl == T_ROUTE then "rds"
    else if typeUrl == T_CLUSTER then "cds"
    else if typeUrl == T_ENDPOINT then "eds"
    else "xds"
  }

  function BuildResponse(snap: Snapshot, typeUrl: string): Option<Response> {
    if typeUrl in snap.byType
    then Some(Response(snap.version, snap.byType[typeUrl], typeUrl, Short(typeUrl) + "-" + snap.version))
    else None
  }

  /** The response carries what the snapshot has of its type, under the snapshot's version. */
  predicate Carries(resp: Response, snap: Snapshot) {
    && resp.typeUrl in snap.byType
    && resp.resources == snap.byType[resp.typeUrl]
    && resp.versionInfo == snap.version
  }

  /** The type part of a nonce. */
  ghost predicate NonceNamesType(resp: Response) {
    && (resp.typeUrl == T_LISTENER ==> resp.nonce == "lds" + "-" + resp.versionInfo)
    && (resp.typeUrl == T_ROUTE ==> resp.nonce == "rds" + "-" + resp.versionInfo)
    && (resp.typeUrl == T_CLUSTER ==> resp.nonce == "cds" + "-" + resp.versionInfo)
    && (resp.typeUrl == T_ENDPOINT ==> resp.nonce == "eds" + "-" + resp.versionInfo)
  }

  lemma ResponseCarries(snap: Snapshot, typeUrl: string)
    ensures BuildResponse(snap, typeUrl).Some? <==> typeUrl in snap.byType
    ensures BuildResponse(snap, typeUrl).Some? ==>
              var resp := BuildResponse(snap, typeUrl).value;
              resp.typeUrl == typeUrl && Carries(resp, snap) && NonceNamesType(resp)
  {
    TypesDiffer();
  }

  /** What one stream keeps, with the log of all it has sent. */
  datatype Session = Session(subscribed: set<string>, sentVersion: map<string, string>, log: seq<Response>)

  const NEW_SESSION := Session({}, map[], [])

  /** `push_if_new`. */
  function PushIfNew(se: Session, typeUrl: string, snap: Snapshot): Session {
    if Lookup(se.sentVersion, typeUrl) == Some(snap.version) then se
    else match BuildResponse(snap, typeUrl)
      case None => se
      case Some(resp) => se.(sentVersion := se.sentVersion[typeUrl := snap.version], log := se.log + [resp])
  }

  /** What a request does to the stream. A rejection also re-advertises, see `Serve`. */
  function Handle(se: Session, req: Request, advertised: Snapshot): Session {
    var noted := se.(subscribed := se.subscribed + {req.typeUrl});
    if req.nack || req.responseNonce != "" then noted else PushIfNew(noted, req.typeUrl, advertised)
  }

  /** The stream has sent what `snap` has of the type, and noted its version. */
  ghost predicate Sent(se: Session, typeUrl: string, snap: Snapshot, se': Session) {
    && |se'.log| == |se.log| + 1 && se'.log[..|se.log|] == se.log
    && se'.log[|se.log|].typeUrl == typeUrl && Carries(se'.log[|se.log|], snap)
    && NonceNamesType(se'.log[|se.log|])
    && se'.sentVersion == se.sentVersion[typeUrl := snap.version]
  }

  /** A push sends the type unless its version is the one last sent, or the snapshot lacks the type. */
  lemma PushSends(se: Session, typeUrl: string, snap: Snapshot)
    ensures var se' := PushIfNew(se, typeUrl, snap);
            if typeUrl in snap.byType && Lookup(se.sentVersion, typeUrl) != Some(snap.version)
            then se'.subscribed == se.subscribed && Sent(se, typeUrl, snap, se')
            else se' == se
  {
    ResponseCarries(snap, typeUrl);
  }

  /** A request sends its type just when it is a fresh subscribe, the snapshot has the type, and its version
      is not the one last sent. An ACK or a NACK sends nothing. */
  lemma RequestSends(se: Session, req: Request, advertised: Snapshot)
    ensures var se' := Handle(se, req, advertised);
            && se'.subscribed == se.subscribed + {req.typeUrl}
            && if !req.nack && req.responseNonce == "" && req.typeUrl in advertised.byType
                  && Lookup(se.sentVersion, req.typeUrl) != Some(advertised.version)
               then Sent(se, req.typeUrl, advertised, se')
               else se'.log == se.log && se'.sentVersion == se.sentVersion
  {
    PushSends(se.(subscribed := se.subscribed + {req.typeUrl}), req.typeUrl, advertised);
  }

  /** Exactly when the first request for a type is answered: when it is a fresh subscribe. After an ACK
      or a NACK the type counts as subscribed to, but waits for the next change. */
  lemma FirstRequestIsAnswered(se: Session, req: Request, advertised: Snapshot)
    requires req.typeUrl !in se.sentVersion && req.typeUrl in advertised.byType
    ensures req.typeUrl in Handle(se, req, advertised).subscribed
    ensures Lookup(Handle(se, req, advertised).sentVersion, req.typeUrl) == Some(advertised.version) <==>
            !req.nack && req.responseNonce == ""
  {
  }

  /** The watch arm, in the order in which the types come up. */
  function PushAll(se: Session, order: seq<string>, snap: Snapshot): Session {
    if order == [] then se
    else PushIfNew(PushAll(se, order[..|order| - 1], snap), order[|order| - 1], snap)
  }

  // ----- the log -----

  /** The last response of a type. */
  function LastResponse(log: seq<Response>, typeUrl: string): Option<Response> {
    if log == [] then None
    else if log[|log| - 1].typeUrl == typeUrl then Some(log[|log| - 1])
    else LastResponse(log[..|log| - 1], typeUrl)
  }

  function LastVersion(log: seq<Response>, typeUrl: string): Option<string> {
    match LastResponse(log, typeUrl)
    case None => None
    case Some(resp) => Some(resp.versionInfo)
  }

  /** No response repeats the version of the response of its type before it. */
  ghost predicate NoRepeats(log: seq<Response>) {
    forall i :: 0 <= i < |log| ==> LastVersion(log[..i], log[i].typeUrl) != Some(log[i].versionInfo)
  }

  lemma LastOfAppend(log: seq<Response>, resp: Response, typeUrl: string)
    ensures LastResponse(log + [resp], typeUrl) ==
            if resp.typeUrl == typeUrl then Some(resp) else LastResponse(log, typeUrl)
  {
    assert (log + [resp])[..|log|] == log;
  }

  lemma LastVersionOfAppend(log: seq<Response>, resp: Response, typeUrl: string)
    ensures LastVersion(log + [resp], typeUrl) ==
            if resp.typeUrl == typeUrl then Some(resp.versionInfo) else LastVersion(log, typeUrl)
  {
    LastOfAppend(log, resp, typeUrl);
  }

  lemma NoRepeatsAppend(log: seq<Response>, resp: Response)
    requires NoRepeats(log) && LastVersion(log, resp.typeUrl) != Some(resp.versionInfo)
    ensures NoRepeats(log + [resp])
  {
    forall i | 0 <= i < |log + [resp]|
      ensures LastVersion((log + [resp])[..i], (log + [resp])[i].typeUrl) != Some((log + [resp])[i].versionInfo)
    {
      assert (log + [resp])[..i] == if i < |log| then log[..i] else log;
    }
  }
}
