/** Chapter 6's control state as it runs. */
module OrcaControl {
  import opened Text
  import opened OrcaModel

  class Control {
    const backends: seq<Member>
    var util: map<string, real>
    var version: nat
    var advertised: Advert
    var writes: nat

    ghost function State(): Orca
      reads this
    {
      Orca(backends, util, version, advertised)
    }

    /** The weights advertised are those of the stored readings. Overlapping observations can end
        otherwise, so no method asks for it. */
    ghost predicate Valid()
      reads this
    {
      advertised.endpoints == Weights(backends, util)
    }

    constructor (backends: seq<Member>)
      ensures State() == Start(backends) && writes == 0 && Valid()
    {
      var initial := new Weighted[|backends|](i requires 0 <= i < |backends| =>
        Weighted(backends[i].ip, WeightFromUtil(DEFAULT_UTIL)));
      this.backends := backends;
      util, version, writes := map[], 1, 0;
      advertised := Advert(VersionName(1), initial[..]);
    }

    /** An ORCA reading: pushed only when it moved. */
    method Observe(host: string, u: real)
      modifies this
      ensures State() == OrcaModel.Observe(old(State()), Report(host, u))
      ensures old(Valid()) || version > old(version) ==> Valid()
      ensures writes - old(writes) == version - old(version)
    {
      var changed := true;
      if host in util && Abs(util[host] - u) < 0.001 {
        changed := false;
      } else {
        util := util[host := u];
      }
      if changed {
        RecomputeAndPush();
      }
    }

    method RecomputeAndPush()
      modifies this`version, this`advertised, this`writes
      ensures version == old(version) + 1 && writes == old(writes) + 1
      ensures advertised == Advert(VersionName(version), Weights(backends, util)) && Valid()
    {
      var weighted: seq<Weighted> := [];
      for i := 0 to |backends|
        invariant weighted == Weights(backends, util)[..i]
      {
        var u := if backends[i].host in util then util[backends[i].host] else DEFAULT_UTIL;
        weighted := weighted + [Weighted(backends[i].ip, WeightFromUtil(u))];
      }
      version := version + 1;
      advertised, writes := Advert(VersionName(version), weighted), writes + 1;
    }
  }
}
