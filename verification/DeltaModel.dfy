/** The Delta xDS server of chapters 4 and 5 as functions on values: what one stream subscribes to,
    what it has told the client, and what one send or one request makes of that.

    The chapters differ only in which names a subscription selects, so the server is written once
    over a `Dialect`. A response is kept here by its content, a map of resources and a set of removed
    names; `DeltaServer` relates it to the lists that go over the wire. */
module DeltaModel {
  import opened Text
  import opened Config
  import opened Maps

  /** `Exact` is chapter 4, `Glob` is chapter 5, where a trailing `*` selects by prefix. */
  datatype Dialect = Exact | Glob

  datatype Entry = Entry(version: string, body: Any)

  datatype Snapshot = Snapshot(systemVersion: string, byType: map<string, map<string, Entry>>) {
    function Of(typeUrl: string): map<string, Entry> {
      if typeUrl in byType then byType[typeUrl] else map[]
    }
  }

  /** The resource that a message refers to. A Cluster without service name has its endpoints under its
      own name. */
  function Reference(m: Message): Option<(string, string)> {
    match m
    case Listener(_, _, routeName) => Some((T_ROUTE, routeName))
    case Route(_, _, cluster) => Some((T_CLUSTER, cluster))
    case Cluster(name, serviceName) => Some((T_ENDPOINT, if serviceName == "" then name else serviceName))
    case Endpoints(_, _) => None
  }

  function OwnName(m: Message): string {
    match m
    case Listener(name, _, _) => name
    case Route(name, _, _) => name
    case Cluster(name, _) => name
    case Endpoints(clusterName, _) => clusterName
  }

  /** Each resource is filed under its own type and name, and what it refers to is in the snapshot. */
  ghost predicate Closed(snap: Snapshot) {
    forall t, n :: n in snap.Of(t) ==>
      var body := snap.Of(t)[n].body;
      && body.typeUrl == t && OwnName(body.message) == n
      && match Reference(body.message)
         case None => true
         case Some((type', name)) => name in snap.Of(type')
  }

  datatype TypeSub = TypeSub(wildcard: bool, names: set<string>)

  const NO_SUB := TypeSub(false, {})

  predicate Covers(subscribed: string, name: string) {
    match StripStar(subscribed)
    case Some(prefix) => StartsWith(name, prefix)
    case None => subscribed == name
  }

  predicate Matches(dialect: Dialect, sub: TypeSub, name: string) {
    sub.wildcard ||
    match dialect
    case Exact => name in sub.names
    case Glob => exists s :: s in sub.names && Covers(s, name)
  }

  /** What a subscription means: the wildcard selects every name, a listed name itself, and in chapter 5 a
      listed `p*` every name that starts with `p`. */
  ghost predicate Selected(dialect: Dialect, sub: TypeSub, name: string) {
    || sub.wildcard
    || name in sub.names
    || (dialect.Glob? && exists p: string :: p + "*" in sub.names && p <= name)
  }

  /** The test that the server runs selects just those names. */
  lemma MatchesIsSelected(dialect: Dialect, sub: TypeSub, name: string)
    ensures Matches(dialect, sub, name) <==> Selected(dialect, sub, name)
  {
    if dialect.Glob? && !sub.wildcard {
      if s :| s in sub.names && Covers(s, name) {
        if StripStar(s).Some? {
          assert s == s[..|s| - 1] + "*";
        }
      }
      if p: string :| p + "*" in sub.names && p <= name {
        assert StripStar(p + "*") == Some(p) && Covers(p + "*", name);
      }
      if name in sub.names {
        assert Covers(name, name);
      }
    }
  }

  datatype Delta = Delta(typeUrl: string, systemVersion: string,
                         resources: map<string, Entry>, removed: set<string>, nonce: string)

  datatype Request = Request(typeUrl: string, nack: bool, responseNonce: string,
                             subscribe: seq<string>, unsubscribe: seq<string>,
                             initial: map<string, string>)

  /** The state of one stream, with the log of all the responses it has emitted. */
  datatype Stream = Stream(subs: map<string, TypeSub>, sent: map<string, map<string, string>>,
                           nonceCtr: nat, log: seq<Delta>)
  {
    function Sub(typeUrl: string): TypeSub {
      if typeUrl in subs then subs[typeUrl] else NO_SUB
    }

    function Sent(typeUrl: string): map<string, string> {
      if typeUrl in sent then sent[typeUrl] else map[]
    }
  }

  const NEW_STREAM := Stream(map[], map[], 0, [])

  // ----- one send -----

  function Versions(entries: map<string, Entry>): map<string, string> {
    map n | n in entries :: entries[n].version
  }

  function Changed(dialect: Dialect, sub: TypeSub, told: map<string, string>, current: map<string, Entry>)
    : map<string, Entry>
  {
    map n | n in current && Matches(dialect, sub, n) && Lookup(told, n) != Some(current[n].version) :: current[n]
  }

  function Vanished(dialect: Dialect, sub: TypeSub, told: map<string, string>, current: map<string, Entry>)
    : set<string>
  {
    set n | n in told && Matches(dialect, sub, n) && n !in current
  }

  /** `told` after the client hears of `resources` and `removed`. */
  function Retold(told: map<string, string>, resources: map<string, Entry>, removed: set<string>)
    : map<string, string>
  {
    (told + Versions(resources)) - removed
  }

  function Nonce(typeUrl: string, counter: nat): string {
    Lowercase(ShortType(typeUrl)) + "-" + Decimal(counter)
  }

  /** The response that a stream told `told` is due, empty if there is nothing to tell. */
  function Due(dialect: Dialect, sub: TypeSub, told: map<string, string>, typeUrl: string, snap: Snapshot, counter: nat)
    : Delta
  {
    Delta(typeUrl, snap.systemVersion, Changed(dialect, sub, told, snap.Of(typeUrl)),
          Vanished(dialect, sub, told, snap.Of(typeUrl)), Nonce(typeUrl, counter))
  }

  predicate Empty(m: Delta) {
    m.resources == map[] && m.removed == {}
  }

  /** `send_delta`. */
  function SendDelta(dialect: Dialect, st: Stream, typeUrl: string, snap: Snapshot): Stream {
    var sub := st.Sub(typeUrl);
    var told := st.Sent(typeUrl);
    var m := Due(dialect, sub, told, typeUrl, snap, st.nonceCtr + 1);
    if Empty(m) then
      st.(subs := st.subs[typeUrl := sub], sent := st.sent[typeUrl := told])
    else
      Stream(st.subs[typeUrl := sub], st.sent[typeUrl := Retold(told, m.resources, m.removed)],
             st.nonceCtr + 1, st.log + [m])
  }

  // ----- one request -----

  function Subscribed(sub: TypeSub, names: seq<string>): TypeSub {
    TypeSub(sub.wildcard || "*" in names, sub.names + (Elements(names) - {"*"}))
  }

  function Unsubscribed(sub: TypeSub, names: seq<string>): TypeSub {
    TypeSub(sub.wildcard && "*" !in names, sub.names - (Elements(names) - {"*"}))
  }

  /** What the request makes of the subscription to its type. A first request that names nothing is a
      wildcard subscription. */
  function Changing(sub: TypeSub, known: bool, req: Request): TypeSub {
    var sub' := Unsubscribed(Subscribed(sub, req.subscribe), req.unsubscribe);
    if !known && req.subscribe == [] && req.unsubscribe == [] then sub'.(wildcard := true) else sub'
  }

  /** The subscription to the request's type after the request. */
  function Resubscribed(st: Stream, req: Request): TypeSub {
    Changing(st.Sub(req.typeUrl), req.typeUrl in st.subs, req)
  }

  /** What the request changes before the server answers it. */
  function Noted(st: Stream, req: Request): Stream {
    st.(subs := st.subs[req.typeUrl := Resubscribed(st, req)],
        sent := st.sent[req.typeUrl := st.Sent(req.typeUrl) + req.initial])
  }

  /** The inbound arm of the stream loop: a NACK changes nothing. */
  function HandleRequest(dialect: Dialect, st: Stream, req: Request, snap: Snapshot): Stream {
    if req.nack then st else SendDelta(dialect, Noted(st, req), req.typeUrl, snap)
  }

  // ----- the watch arm -----

  /** One send per type, in the order in which the loop meets the types. */
  function SendAll(dialect: Dialect, st: Stream, order: seq<string>, snap: Snapshot): Stream {
    if order == [] then st
    else SendDelta(dialect, SendAll(dialect, st, order[..|order| - 1], snap), order[|order| - 1], snap)
  }
}
