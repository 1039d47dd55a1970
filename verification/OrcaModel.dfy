/** Chapter 6: load reports turned into endpoint weights. Utilizations are real numbers. */
module OrcaModel {
  import opened Text

  datatype Weighted = Weighted(ip: string, weight: nat)

  /** The advertised snapshot: its version and its endpoints; the rest never changes. */
  datatype Advert = Advert(version: string, endpoints: seq<Weighted>)

  datatype Member = Member(host: string, ip: string)

  datatype Orca = Orca(backends: seq<Member>, util: map<string, real>, version: nat, advertised: Advert)

  datatype Report = Report(host: string, util: real)

  function Abs(x: real): real {
    if x < 0.0 then -x else x
  }

  function Clamp(x: real, low: real, high: real): real
    requires low <= high
  {
    if x < low then low else if x > high then high else x
  }

  /** `f64::round`: halves away from zero. */
  function Round(x: real): int {
    if x < 0.0 then -((0.5 - x).Floor) else (x + 0.5).Floor
  }

  function WeightFromUtil(util: real): nat {
    var u := Clamp(util, 0.0, 0.99);
    var w := Round((1.0 - u) * 1000.0);
    if w < 1 then 1 else w
  }

  const DEFAULT_UTIL := 0.5

  function UtilOf(util: map<string, real>, host: string): real {
    if host in util then util[host] else DEFAULT_UTIL
  }

  function Weights(backends: seq<Member>, util: map<string, real>): seq<Weighted> {
    seq(|backends|, i requires 0 <= i < |backends| =>
      Weighted(backends[i].ip, WeightFromUtil(UtilOf(util, backends[i].host))))
  }

  function Start(backends: seq<Member>): Orca {
    Orca(backends, map[], 1, Advert(VersionName(1), Weights(backends, map[])))
  }

  /** The reading counts as moved: it is the first, or it is off the stored one by the threshold. */
  predicate Moved(util: map<string, real>, r: Report) {
    r.host !in util || Abs(util[r.host] - r.util) >= 0.001
  }

  /** `observe`, with the push that it makes. */
  function Observe(o: Orca, r: Report): Orca {
    if !Moved(o.util, r) then o
    else
      var util := o.util[r.host := r.util];
      Orca(o.backends, util, o.version + 1, Advert(VersionName(o.version + 1), Weights(o.backends, util)))
  }

  function ObserveAll(backends: seq<Member>, reports: seq<Report>): Orca {
    if reports == [] then Start(backends)
    else Observe(ObserveAll(backends, reports[..|reports| - 1]), reports[|reports| - 1])
  }

  function Latest(reports: seq<Report>, host: string): Option<real> {
    if reports == [] then None
    else if reports[|reports| - 1].host == host then Some(reports[|reports| - 1].util)
    else Latest(reports[..|reports| - 1], host)
  }

  // ----- weights -----

  lemma WeightRange(util: real)
    ensures 10 <= WeightFromUtil(util) <= 1000
  {
    var u := Clamp(util, 0.0, 0.99);
    assert 10.0 <= (1.0 - u) * 1000.0 <= 1000.0;
  }

  /** Within the range the weight is the whole number nearest to a thousand times the headroom, halves up. */
  lemma WeightIsNearest(util: real)
    ensures 0.0 <= util <= 0.99 ==>
              var exact := (1.0 - util) * 1000.0;
              exact - 0.5 < WeightFromUtil(util) as real <= exact + 0.5
    ensures util <= 0.0 ==> WeightFromUtil(util) == 1000
    ensures util >= 0.99 ==> WeightFromUtil(util) == 10
  {
    var x := (1.0 - Clamp(util, 0.0, 0.99)) * 1000.0;
    assert 10.0 <= x <= 1000.0;
  }

  /** A lighter backend never weighs less. */
  lemma LighterWeighsMore(p: real, u: real)
    requires p <= u
    ensures WeightFromUtil(p) >= WeightFromUtil(u)
  {
    assert Clamp(p, 0.0, 0.99) <= Clamp(u, 0.0, 0.99);
  }

  /** Readings within the threshold weigh the same up to one. */
  lemma CloseReadings(p: real, u: real)
    requires Abs(p - u) < 0.001
    ensures -1 <= WeightFromUtil(p) - WeightFromUtil(u) <= 1
  {
    var x, y := (1.0 - Clamp(p, 0.0, 0.99)) * 1000.0, (1.0 - Clamp(u, 0.0, 0.99)) * 1000.0;
    assert -1.0 < x - y < 1.0;
  }

  /** Both readings lie at the idle end, or both at the busy end, where the clamp and the rounding leave a
      single weight. */
  predicate SameEnd(p: real, u: real) {
    || (p <= 0.0005 && u <= 0.0005)
    || (p > 0.9895 && u > 0.9895)
  }

  /** Exactly when readings apart by the threshold weigh the same. */
  lemma MovedReadings(p: real, u: real)
    requires Abs(p - u) >= 0.001
    ensures WeightFromUtil(p) == WeightFromUtil(u) <==> SameEnd(p, u)
  {
    var x, y := (1.0 - Clamp(p, 0.0, 0.99)) * 1000.0, (1.0 - Clamp(u, 0.0, 0.99)) * 1000.0;
    assert x >= 999.5 <==> p <= 0.0005;
    assert x < 10.5 <==> p > 0.9895;
    assert y >= 999.5 <==> u <= 0.0005;
    assert y < 10.5 <==> u > 0.9895;
  }

  /** Exactly which readings weigh as much as none at all. */
  lemma HalfUsed(u: real)
    ensures WeightFromUtil(u) == WeightFromUtil(DEFAULT_UTIL) <==> 0.4995 < u <= 0.5005
  {
    var x := (1.0 - Clamp(u, 0.0, 0.99)) * 1000.0;
    assert 499.5 <= x < 500.5 <==> 0.4995 < u <= 0.5005;
  }

  /** The reading moves no weight: it stays at one end of the range, or is the first and close to half. */
  predicate Weightless(util: map<string, real>, r: Report) {
    if r.host in util then SameEnd(util[r.host], r.util) else 0.4995 < r.util <= 0.5005
  }

  lemma WeightMoves(util: map<string, real>, r: Report)
    requires Moved(util, r)
    ensures WeightFromUtil(r.util) == WeightFromUtil(UtilOf(util, r.host)) <==> Weightless(util, r)
  {
    if r.host in util {
      MovedReadings(util[r.host], r.util);
    } else {
      HalfUsed(r.util);
    }
  }

  // ----- every sequence of reports -----

  /** The stored reading of a host is within the threshold of its latest one. */
  ghost predicate Follows(util: map<string, real>, reports: seq<Report>, host: string) {
    match Latest(reports, host)
    case None => host !in util
    case Some(u) => host in util && Abs(util[host] - u) < 0.001
  }

  /** Over every sequence of reports: the advertised weights are those of the stored readings, in the order
      of the backends; a host without report counts as half used; and a reported host weighs within one of
      what its latest reading weighs. */
  lemma {:induction false} WeightsFollowReports(backends: seq<Member>, reports: seq<Report>, host: string)
    ensures var o := ObserveAll(backends, reports);
            && o.backends == backends
            && o.advertised == Advert(VersionName(o.version), Weights(backends, o.util))
            && Follows(o.util, reports, host)
            && var w := WeightFromUtil(UtilOf(o.util, host));
               match Latest(reports, host)
               case None => w == 500
               case Some(u) => 10 <= w <= 1000 && -1 <= w - WeightFromUtil(u) <= 1
  {
    if reports != [] {
      WeightsFollowReports(backends, reports[..|reports| - 1], host);
    }
    var o := ObserveAll(backends, reports);
    assert Follows(o.util, reports, host);
    WeightRange(UtilOf(o.util, host));
    match Latest(reports, host)
    case None => assert WeightFromUtil(0.5) == 500;
    case Some(u) => CloseReadings(o.util[host], u);
  }

  /** The comment on `weight_from_util`, over every sequence of reports: of two hosts whose latest readings
      are apart, the lighter one never weighs less, and it weighs more unless both are at one end. */
  lemma LighterBackendWeighsMore(backends: seq<Member>, reports: seq<Report>, light: string, heavy: string)
    requires Latest(reports, light).Some? && Latest(reports, heavy).Some?
    requires Latest(reports, light).value + 0.002 <= Latest(reports, heavy).value
    ensures var p, u := Latest(reports, light).value, Latest(reports, heavy).value;
            var util := ObserveAll(backends, reports).util;
            && WeightFromUtil(UtilOf(util, light)) >= WeightFromUtil(UtilOf(util, heavy))
            && (p + 0.003 <= u && u >= 0.0015 && p <= 0.9885 ==>
                  WeightFromUtil(UtilOf(util, light)) > WeightFromUtil(UtilOf(util, heavy)))
  {
    WeightsFollowReports(backends, reports, light);
    WeightsFollowReports(backends, reports, heavy);
    var util := ObserveAll(backends, reports).util;
    LighterWeighsMore(util[light], util[heavy]);
    if Latest(reports, light).value + 0.003 <= Latest(reports, heavy).value {
      MovedReadings(util[light], util[heavy]);
    }
  }

  /** After any reports, exactly when one more report moves a weight, and which: it must be off the stored
      reading by the threshold, so that it is pushed, and not be weightless. A report that is not pushed
      changes nothing at all. */
  lemma NoPushIsWasted(backends: seq<Member>, reports: seq<Report>, r: Report)
    ensures var o := ObserveAll(backends, reports);
            var o' := Observe(o, r);
            && (o'.version == o.version <==> o' == o)
            && (o'.version == o.version <==>
                  r.host in o.util && Abs(o.util[r.host] - r.util) < 0.001)
            && |o.advertised.endpoints| == |o'.advertised.endpoints| == |backends|
            && forall k :: 0 <= k < |backends| ==>
                 (o'.advertised.endpoints[k] != o.advertised.endpoints[k] <==>
                    backends[k].host == r.host && o'.version != o.version && !Weightless(o.util, r))
  {
    var o := ObserveAll(backends, reports);
    var o' := Observe(o, r);
    WeightsFollowReports(backends, reports, r.host);
    if Moved(o.util, r) {
      WeightMoves(o.util, r);
    }
  }

  predicate InRange(util: real) {
    0.0 <= util <= 0.99
  }

  /** How many reports were pushed. */
  function Pushes(backends: seq<Member>, reports: seq<Report>): nat {
    if reports == [] then 0
    else
      var before := reports[..|reports| - 1];
      Pushes(backends, before) +
      if Moved(ObserveAll(backends, before).util, reports[|reports| - 1]) then 1 else 0
  }

  /** Over every sequence of reports the version is one more than the number of pushes, and what is advertised
      has each backend's address, in order, with the weight of its stored reading. */
  lemma {:induction false} VersionCountsPushes(backends: seq<Member>, reports: seq<Report>)
    ensures var o := ObserveAll(backends, reports);
            && o.version == 1 + Pushes(backends, reports)
            && o.advertised.version == "v" + Decimal(1 + Pushes(backends, reports))
            && |o.advertised.endpoints| == |backends|
            && forall k :: 0 <= k < |backends| ==>
                 && o.advertised.endpoints[k].ip == backends[k].ip
                 && o.advertised.endpoints[k].weight ==
                    WeightFromUtil(if backends[k].host in o.util then o.util[backends[k].host] else 0.5)
  {
    hide WeightFromUtil, Decimal;
    if reports != [] {
      VersionCountsPushes(backends, reports[..|reports| - 1]);
    }
    WeightsFollowReports(backends, reports, "");
  }

  lemma {:induction false} StoredInRange(backends: seq<Member>, reports: seq<Report>)
    requires forall i :: 0 <= i < |reports| ==> InRange(reports[i].util)
    ensures forall h :: h in ObserveAll(backends, reports).util ==> InRange(ObserveAll(backends, reports).util[h])
  {
    if reports != [] {
      StoredInRange(backends, reports[..|reports| - 1]);
    }
  }

  /** So with readings in the range that is not clamped no push after a host's first one is wasted. */
  lemma InRangePushesCount(backends: seq<Member>, reports: seq<Report>, r: Report, k: nat)
    requires forall i :: 0 <= i < |reports| ==> InRange(reports[i].util)
    requires InRange(r.util) && Latest(reports, r.host).Some?
    requires k < |backends| && backends[k].host == r.host
    ensures var o := ObserveAll(backends, reports);
            var o' := Observe(o, r);
            && |o.advertised.endpoints| == |o'.advertised.endpoints| == |backends|
            && (o'.version != o.version <==> o'.advertised.endpoints[k] != o.advertised.endpoints[k])
  {
    NoPushIsWasted(backends, reports, r);
    WeightsFollowReports(backends, reports, r.host);
    StoredInRange(backends, reports);
  }

  /** Out of range the clamp hides the move: from 1.2 to 1.5 a new version is pushed with the same weights. */
  lemma ClampedPushIsWasted(backends: seq<Member>, host: string)
    ensures var o := Observe(Start(backends), Report(host, 1.2));
            var o' := Observe(o, Report(host, 1.5));
            o'.version == o.version + 1 && o'.advertised.endpoints == o.advertised.endpoints
  {
    var o := Observe(Start(backends), Report(host, 1.2));
    var o' := Observe(o, Report(host, 1.5));
    MovedReadings(1.2, 1.5);
    forall k | 0 <= k < |backends|
      ensures Weights(backends, o'.util)[k] == Weights(backends, o.util)[k]
    {}
  }
}
