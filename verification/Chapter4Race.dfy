/** Chapter 4's `bump` at the grain of single atomic actions: it takes a number, and later publishes the
    snapshot of that number, so bumps can overtake each other. */
module Chapter4Race {
  import opened DeltaModel
  import opened Chapter4Snapshot

  /** `pending` are the numbers taken and not yet published. */
  datatype Bumps = Bumps(ip: string, routeVersion: nat, pending: set<nat>, value: Snapshot)

  datatype Action = Number | Publish(n: nat)

  function Start(ip: string): Bumps {
    Bumps(ip, 1, {}, Built(1, ip))
  }

  predicate Enabled(b: Bumps, a: Action) {
    a.Publish? ==> a.n in b.pending
  }

  function Act(b: Bumps, a: Action): Bumps {
    if !Enabled(b, a) then b
    else match a
      case Number => b.(routeVersion := b.routeVersion + 1, pending := b.pending + {b.routeVersion + 1})
      case Publish(n) => b.(pending := b.pending - {n}, value := Built(n, b.ip))
  }

  function ActAll(ip: string, acts: seq<Action>): Bumps {
    if acts == [] then Start(ip) else Act(ActAll(ip, acts[..|acts| - 1]), acts[|acts| - 1])
  }

  /** The numbers published, in order; the first is that of the start. */
  function Published(ip: string, acts: seq<Action>): (ns: seq<nat>)
    ensures ns != []
  {
    if acts == [] then [1]
    else
      var before, a := acts[..|acts| - 1], acts[|acts| - 1];
      Published(ip, before) + if a.Publish? && Enabled(ActAll(ip, before), a) then [a.n] else []
  }

  function LastPublished(ip: string, acts: seq<Action>): nat {
    var ns := Published(ip, acts); ns[|ns| - 1]
  }

  /** Run without being overtaken, the two actions are one bump. */
  lemma UndisturbedIsAtomic(b: Bumps)
    requires b.routeVersion + 1 !in b.pending
    ensures Act(Act(b, Number), Publish(b.routeVersion + 1)) ==
            b.(routeVersion := b.routeVersion + 1, value := Built(b.routeVersion + 1, b.ip))
  {
    var n := b.routeVersion + 1;
    assert b.pending + {n} - {n} == b.pending;
  }

  /** Every number up to the counter is published or pending, and no other. */
  ghost predicate Accounted(b: Bumps, ns: seq<nat>)
    requires ns != []
  {
    && b.value == Built(ns[|ns| - 1], b.ip)
    && (forall n :: 1 <= n <= b.routeVersion <==> n in b.pending || n in ns)
  }

  lemma AccountedStep(b: Bumps, ns: seq<nat>, a: Action)
    requires ns != [] && Accounted(b, ns)
    ensures Accounted(Act(b, a), ns + if a.Publish? && Enabled(b, a) then [a.n] else [])
  {
    hide Built;
    match a
    case Number => assert ns + [] == ns;
    case Publish(n) =>
      if Enabled(b, a) {
        forall k ensures k in ns + [n] <==> k in ns || k == n {}
      } else {
        assert ns + [] == ns;
      }
  }

  lemma {:induction false} EveryNumberIsAccounted(ip: string, acts: seq<Action>)
    ensures ActAll(ip, acts).ip == ip && Accounted(ActAll(ip, acts), Published(ip, acts))
  {
    if acts != [] {
      hide Built, Accounted;
      EveryNumberIsAccounted(ip, acts[..|acts| - 1]);
      AccountedStep(ActAll(ip, acts[..|acts| - 1]), Published(ip, acts[..|acts| - 1]), acts[|acts| - 1]);
    }
  }

  lemma BuiltDiffer(a: nat, b: nat, ip: string)
    ensures Built(a, ip) == Built(b, ip) <==> a == b
  {
    OfBuilt(a, ip, Config.T_ROUTE);
    OfBuilt(b, ip, Config.T_ROUTE);
    Config.TypesDiffer();
    VersionTellsBody(a, b, ip, Config.T_ROUTE, ROUTE_NAME);
  }

  /** In every run at this grain the newest route is advertised just when its number was published last.
      When no bump is under way, that is just when no number published before was larger. */
  lemma {:induction false} NewestIsAdvertised(ip: string, acts: seq<Action>)
    ensures var b := ActAll(ip, acts);
            && (b.value == Built(b.routeVersion, ip) <==> LastPublished(ip, acts) == b.routeVersion)
            && (b.pending == {} ==>
                  (b.value == Built(b.routeVersion, ip) <==>
                   forall n :: n in Published(ip, acts) ==> n <= LastPublished(ip, acts)))
  {
    hide Built, ActAll, Published;
    EveryNumberIsAccounted(ip, acts);
    var b, ns := ActAll(ip, acts), Published(ip, acts);
    BuiltDiffer(LastPublished(ip, acts), b.routeVersion, ip);
    assert ns[|ns| - 1] in ns;
    assert 1 <= ns[|ns| - 1] <= b.routeVersion;
    assert b.routeVersion in b.pending || b.routeVersion in ns;
  }

  /** An input that fails it: of two overlapping bumps the first publishes last, and both are done. */
  lemma OvertakenBump(ip: string)
    ensures var b := ActAll(ip, [Number, Number, Publish(3), Publish(2)]);
            && b.pending == {} && b.routeVersion == 3
            && b.value == Built(2, ip) && b.value != Built(b.routeVersion, ip)
  {
    hide Built;
    var acts := [Number, Number, Publish(3), Publish(2)];
    assert acts[..3][..2] == [Number, Number] && acts[..2][..1] == [Number] && acts[..1][..0] == [];
    var b2 := ActAll(ip, [Number, Number]);
    assert ActAll(ip, [Number]) == Bumps(ip, 2, {2}, Built(1, ip)) by {
      assert [Number][..0] == [];
    }
    assert [Number, Number][..1] == [Number];
    assert b2.pending == {2, 3};
    assert acts[..3] == [Number, Number, Publish(3)] && acts[..3][..2] == [Number, Number];
    assert ActAll(ip, acts[..3]).pending == {2};
    BuiltDiffer(2, 3, ip);
  }
}
