/** The advertised snapshot against the rollback target. With the handlers run one after the other it is
    the last good snapshot, or a broken one that is newer; overlapping handlers can break this. */
module SotwDiscipline {
  import opened Text
  import opened Maps
  import opened Config
  import opened SotwModel
  import opened SotwPlane
  import opened SotwRollback
  import opened SotwHealing

  ghost predicate Disciplined(p: Plane) {
    || p.value == p.lastGood
    || (Broken(p.value) && VersionNumber(p.lastGood.version) < VersionNumber(p.value.version))
  }

  // ----- the steps that can break it -----

  /** Exactly when publishing version `n` leaves the system disciplined. */
  lemma PublishIsDisciplined(p: Plane, n: nat)
    requires Inv(p) && Enabled(p, Publish(n))
    ensures Disciplined(Step(p, Publish(n))) <==> InTurn(p, Publish(n))
  {
    IssuedAt(p.ip, p.issued, n);
    IssuedAt(p.ip, p.issued, VersionNumber(p.lastGood.version));
  }

  /** And exactly when re-advertising after a rejection does. */
  lemma RollbackIsDisciplined(p: Plane, i: nat)
    requires Inv(p) && Enabled(p, Rollback(i))
    ensures Disciplined(Step(p, Rollback(i))) <==> InTurn(p, Rollback(i))
  {
    var good := p.conns[i].phase.good;
    assert ConnInv(p.ip, p.issued, p.value, p.writes, p.conns[i]);
    IssuedAt(p.ip, p.issued, VersionNumber(good.version));
    SameVersionSameSnapshot(p.ip, p.issued, good, p.lastGood);
  }

  /** And exactly when storing version `n` as the last good one does: inside a good push this is the step
      that breaks it, until the push is published. */
  lemma StoreIsDisciplined(p: Plane, n: nat)
    requires Inv(p) && Enabled(p, Store(n))
    ensures var v := VersionNumber(p.value.version);
            Disciplined(Step(p, Store(n))) <==> v == n || (1 <= v <= |p.issued| && p.issued[v - 1] && n < v)
  {
    IssuedAt(p.ip, p.issued, n);
    IssuedAt(p.ip, p.issued, VersionNumber(p.value.version));
  }

  /** No other step changes it. */
  lemma OthersKeepDiscipline(p: Plane, ev: Event)
    requires !Enabled(p, ev) || (!ev.Store? && !Writes(p, ev))
    ensures Step(p, ev).value == p.value && Step(p, ev).lastGood == p.lastGood
    ensures Disciplined(Step(p, ev)) <==> Disciplined(p)
  {
  }

  /** The event writes the watch cell. */
  predicate Writes(p: Plane, ev: Event) {
    (ev.Publish? || ev.Rollback?) && Enabled(p, ev)
  }

  /** The write comes in turn: a good snapshot is the last one stored, a broken one is newer than that, and
      a rollback brings back that one. */
  predicate InTurn(p: Plane, ev: Event)
    requires Writes(p, ev)
  {
    match ev
    case Publish(n) =>
      if p.issued[n - 1] then VersionNumber(p.lastGood.version) < n else VersionNumber(p.lastGood.version) == n
    case Rollback(i) => p.conns[i].phase.good.version == p.lastGood.version
  }

  // ----- whole runs -----

  /** The length of the run up to the last write of the watch cell, 0 if there is none. */
  function LastWrite(p: Plane, evs: seq<Event>): (k: nat)
    ensures k <= |evs|
    ensures k > 0 ==> Writes(After(p, evs[..k - 1]), evs[k - 1])
  {
    if evs == [] then 0
    else
      var before := evs[..|evs| - 1];
      if Writes(After(p, before), evs[|evs| - 1]) then |evs|
      else
        var k := LastWrite(p, before);
        assert k > 0 ==> before[..k - 1] == evs[..k - 1];
        k
  }

  /** Between the last write and the end, what is advertised stays; and so does the rollback target, unless
      a good push is under way. */
  lemma {:induction false} SinceLastWrite(p: Plane, evs: seq<Event>)
    requires Inv(p)
    ensures var q, p' := After(p, evs[..LastWrite(p, evs)]), After(p, evs);
            p'.value == q.value && (p'.lastGood == q.lastGood || exists n :: n in p'.tasks && p'.tasks[n] == Stored)
  {
    var k := LastWrite(p, evs);
    if k == |evs| {
      assert evs[..k] == evs;
    } else {
      var before, ev := evs[..|evs| - 1], evs[|evs| - 1];
      SinceLastWrite(p, before);
      assert before[..k] == evs[..k];
      var mid, p' := After(p, before), After(p, evs);
      if ev.Store? && Enabled(mid, ev) {
        assert ev.n in p'.tasks && p'.tasks[ev.n] == Stored;
      } else {
        OthersKeepDiscipline(mid, ev);
        if n :| n in mid.tasks && mid.tasks[n] == Stored {
          RunInv(p, before);
          TasksStay(mid, ev, n);
          assert p'.tasks[n] == Stored;
        }
      }
    }
  }

  lemma TasksStay(p: Plane, ev: Event, n: nat)
    requires !Enabled(p, ev) || (!ev.Store? && !Writes(p, ev))
    requires ControlInv(p) && n in p.tasks
    ensures n in Step(p, ev).tasks && Step(p, ev).tasks[n] == p.tasks[n]
  {
  }

  /** At the end of every run in which no push is under way, under any interleaving: the advertised snapshot
      is the last good one, or a newer broken one, just when the last write of the watch cell came in turn,
      and if nothing was written. */
  lemma {:induction false} LastWriteDecides(ip: string, evs: seq<Event>)
    requires After(Start(ip), evs).tasks == map[]
    ensures var k := LastWrite(Start(ip), evs);
            Disciplined(After(Start(ip), evs)) <==>
            k == 0 || InTurn(After(Start(ip), evs[..k - 1]), evs[k - 1])
  {
    hide After, Step, Disciplined, InTurn;
    var k := LastWrite(Start(ip), evs);
    StartInv(ip);
    SinceLastWrite(Start(ip), evs);
    SameDiscipline(After(Start(ip), evs[..k]), After(Start(ip), evs));
    if k == 0 {
      StartIsDisciplined(ip, evs);
    } else {
      var before := evs[..k - 1];
      RunInv(Start(ip), before);
      AfterLast(Start(ip), evs, k);
      match evs[k - 1]
      case Publish(n) => PublishIsDisciplined(After(Start(ip), before), n);
      case Rollback(i) => RollbackIsDisciplined(After(Start(ip), before), i);
    }
  }

  lemma SameDiscipline(p: Plane, q: Plane)
    requires p.value == q.value && p.lastGood == q.lastGood
    ensures Disciplined(p) <==> Disciplined(q)
  {
  }

  lemma StartIsDisciplined(ip: string, evs: seq<Event>)
    ensures Disciplined(After(Start(ip), evs[..0]))
  {
    assert evs[..0] == [];
  }

  lemma AfterLast(p: Plane, evs: seq<Event>, k: nat)
    requires 0 < k <= |evs|
    ensures After(p, evs[..k]) == Step(After(p, evs[..k - 1]), evs[k - 1])
  {
    assert evs[..k][..k - 1] == evs[..k - 1];
  }

  // ----- handlers one after the other -----

  /** A whole handler: `push_good`, `push_broken`, the inbound arm, or any other single step. */
  datatype Handler = PushGood | PushBroken | Inbound(i: nat) | Other(ev: Event)

  predicate Whole(h: Handler) {
    h.Other? ==> h.ev.Open? || h.ev.Send? || h.ev.Wake? || h.ev.Push? || h.ev.Deliver?
  }

  function Run(p: Plane, h: Handler): Plane {
    var n := |p.issued| + 1;
    match h
    case PushGood => Step(Step(Step(p, Number(false)), Store(n)), Publish(n))
    case PushBroken => Step(Step(p, Number(true)), Publish(n))
    case Inbound(i) => Step(Step(p, Serve(i)), Rollback(i))
    case Other(ev) => Step(p, ev)
  }

  function RunAll(p: Plane, hs: seq<Handler>): Plane {
    if hs == [] then p else Run(RunAll(p, hs[..|hs| - 1]), hs[|hs| - 1])
  }

  ghost predicate NoneRollingBack(conns: seq<Conn>) {
    forall i :: 0 <= i < |conns| ==> !conns[i].phase.RollingBack?
  }

  ghost predicate Calm(p: Plane) {
    Inv(p) && Disciplined(p) && NoneRollingBack(p.conns)
  }

  lemma NumberStep(p: Plane, broken: bool)
    requires Inv(p)
    ensures var n := |p.issued| + 1;
            var p' := Step(p, Number(broken));
            && Inv(p') && p' == p.(issued := p.issued + [broken], tasks := p.tasks[n := Numbered])
            && |p'.issued| == n && p'.issued[n - 1] == broken && n in p'.tasks && p'.tasks[n] == Numbered
  {
    InvStep(p, Number(broken));
  }

  lemma StoreStep(p: Plane, n: nat)
    requires Inv(p) && Enabled(p, Store(n))
    ensures var p' := Step(p, Store(n));
            && Inv(p') && p' == p.(lastGood := SnapshotAt(p.ip, p.issued, n), tasks := p.tasks[n := Stored])
            && VersionNumber(p'.lastGood.version) == n && Enabled(p', Publish(n))
  {
    InvStep(p, Store(n));
    IssuedAt(p.ip, p.issued, n);
  }

  lemma PublishStep(p: Plane, n: nat)
    requires Inv(p) && Enabled(p, Publish(n))
    ensures var p' := Step(p, Publish(n));
            && Inv(p') && p'.conns == p.conns && p'.lastGood == p.lastGood && p'.issued == p.issued
            && p'.value == SnapshotAt(p.ip, p.issued, n) && p'.tasks == p.tasks - {n} && p'.ip == p.ip
            && VersionNumber(p'.value.version) == n && (Broken(p'.value) <==> p.issued[n - 1])
  {
    InvStep(p, Publish(n));
    IssuedAt(p.ip, p.issued, n);
  }

  lemma PushGoodRun(p: Plane)
    requires Calm(p)
    ensures var p' := Run(p, PushGood);
            Calm(p') && p'.value == p'.lastGood && VersionNumber(p'.value.version) == |p.issued| + 1
  {
    var n := |p.issued| + 1;
    NumberStep(p, false);
    var p1 := Step(p, Number(false));
    StoreStep(p1, n);
    PublishStep(Step(p1, Store(n)), n);
  }

  lemma PushBrokenRun(p: Plane)
    requires Calm(p)
    ensures var p' := Run(p, PushBroken);
            && Calm(p') && Broken(p'.value) && p'.lastGood == p.lastGood
            && VersionNumber(p'.value.version) == |p.issued| + 1
  {
    NumberStep(p, true);
    PublishStep(Step(p, Number(true)), |p.issued| + 1);
  }

  lemma InboundValues(p: Plane, i: nat)
    requires Disciplined(p) && NoneRollingBack(p.conns)
    ensures var p' := Run(p, Inbound(i));
            && p'.lastGood == p.lastGood && NoneRollingBack(p'.conns)
            && p'.value == if Enabled(p, Serve(i)) && p.conns[i].requests[0].nack then p.lastGood else p.value
  {
  }

  lemma InboundRun(p: Plane, i: nat)
    requires Calm(p)
    ensures Calm(Run(p, Inbound(i)))
    ensures Enabled(p, Serve(i)) && p.conns[i].requests[0].nack ==> Run(p, Inbound(i)).value == p.lastGood
  {
    InvStep(p, Serve(i));
    InvStep(Step(p, Serve(i)), Rollback(i));
    InboundValues(p, i);
  }

  lemma OtherValues(p: Plane, ev: Event)
    requires NoneRollingBack(p.conns) && Whole(Other(ev))
    ensures var p' := Step(p, ev);
            p'.value == p.value && p'.lastGood == p.lastGood && NoneRollingBack(p'.conns)
  {
  }

  lemma OtherRun(p: Plane, ev: Event)
    requires Calm(p) && Whole(Other(ev))
    ensures Calm(Step(p, ev))
  {
    InvStep(p, ev);
    OtherValues(p, ev);
  }

  /** Handlers that do not overlap keep the advertised snapshot the last good one, or a newer broken
      one. */
  lemma {:induction false} HandlersAreDisciplined(ip: string, hs: seq<Handler>)
    requires forall i :: 0 <= i < |hs| ==> Whole(hs[i])
    ensures Calm(RunAll(Start(ip), hs))
  {
    if hs == [] {
      StartInv(ip);
    } else {
      HandlersAreDisciplined(ip, hs[..|hs| - 1]);
      var p := RunAll(Start(ip), hs[..|hs| - 1]);
      match hs[|hs| - 1]
      case PushGood => PushGoodRun(p);
      case PushBroken => PushBrokenRun(p);
      case Inbound(i) => InboundRun(p, i);
      case Other(ev) => OtherRun(p, ev);
    }
  }

  lemma HandlerRejects(p: Plane, h: Handler)
    requires RejectInv(p)
    ensures RejectInv(Run(p, h))
  {
    hide RejectInv, Step;
    var n := |p.issued| + 1;
    match h
    case PushGood =>
      RejectStep(p, Number(false));
      RejectStep(Step(p, Number(false)), Store(n));
      RejectStep(Step(Step(p, Number(false)), Store(n)), Publish(n));
    case PushBroken =>
      RejectStep(p, Number(true));
      RejectStep(Step(p, Number(true)), Publish(n));
    case Inbound(i) =>
      RejectStep(p, Serve(i));
      RejectStep(Step(p, Serve(i)), Rollback(i));
    case Other(ev) => RejectStep(p, ev);
  }

  lemma {:induction false} HandlersReject(ip: string, hs: seq<Handler>)
    ensures RejectInv(RunAll(Start(ip), hs))
  {
    if hs == [] {
      StartInv(ip);
    } else {
      HandlersReject(ip, hs[..|hs| - 1]);
      HandlerRejects(RunAll(Start(ip), hs[..|hs| - 1]), hs[|hs| - 1]);
    }
  }

  /** Handlers that do not overlap heal to the last good snapshot: when the exchange is over, it is
      advertised again, and each stream last sent it. */
  lemma {:induction false} HealedToLastGood(ip: string, hs: seq<Handler>, i: nat)
    requires forall k :: 0 <= k < |hs| ==> Whole(hs[k])
    requires var p := RunAll(Start(ip), hs);
             && (forall ev :: Internal(ev) ==> !Enabled(p, ev))
             && i < |p.conns| && p.conns[i].strict && T_LISTENER in p.conns[i].session.subscribed
    ensures var p := RunAll(Start(ip), hs);
            && p.value == p.lastGood
            && forall j, t :: 0 <= j < |p.conns| && t in p.conns[j].session.subscribed && Known(t) ==>
                 Lookup(p.conns[j].session.sentVersion, t) == Some(p.lastGood.version)
  {
    hide RunAll, Enabled;
    HandlersAreDisciplined(ip, hs);
    HandlersReject(ip, hs);
    OverMeansAtRest(RunAll(Start(ip), hs));
    AtRestMeansHealed(RunAll(Start(ip), hs), i);
  }

  // ----- overlapping handlers -----

  lemma {:induction false} AfterSplit(p: Plane, a: seq<Event>, b: seq<Event>)
    ensures After(p, a + b) == After(After(p, a), b)
  {
    if b == [] {
      assert a + b == a;
    } else {
      AfterSplit(p, a, b[..|b| - 1]);
      assert (a + b)[..|a + b| - 1] == a + b[..|b| - 1];
    }
  }

  lemma FirstTwo(p: Plane, a: Event, b: Event)
    ensures After(p, [a, b]) == Step(Step(p, a), b)
  {
    assert [a, b][..1] == [a] && [a][..0] == [];
    assert After(p, [a]) == Step(p, a);
  }

  lemma InSixSteps(p: Plane, a: Event, b: Event, c: Event, d: Event, e: Event, f: Event)
    ensures After(p, [a, b, c, d, e, f]) == Step(Step(Step(Step(Step(Step(p, a), b), c), d), e), f)
  {
    hide Step, After;
    var p2 := Step(Step(p, a), b);
    var p4 := Step(Step(p2, c), d);
    FirstTwo(p, a, b);
    FirstTwo(p2, c, d);
    FirstTwo(p4, e, f);
    AfterSplit(p, [a, b], [c, d]);
    AfterSplit(p, [a, b] + [c, d], [e, f]);
    assert [a, b] + [c, d] + [e, f] == [a, b, c, d, e, f];
  }

  /** Two pushes numbered 2 and 3, stored in the order 3, 2 and published in the order 2, 3. */
  lemma Overlap(p: Plane)
    requires Inv(p) && |p.issued| == 1 && p.tasks == map[]
    ensures var p2 := Step(Step(p, Number(false)), Number(false));
            var p' := Step(Step(Step(Step(p2, Store(3)), Store(2)), Publish(2)), Publish(3));
            && p'.tasks == map[] && !Broken(p'.value)
            && VersionNumber(p'.lastGood.version) == 2 && VersionNumber(p'.value.version) == 3
  {
    NumberStep(p, false);
    var p1 := Step(p, Number(false));
    NumberStep(p1, false);
    var p2 := Step(p1, Number(false));
    assert p2.tasks == map[2 := Numbered, 3 := Numbered];
    StoreStep(p2, 3);
    var p3 := Step(p2, Store(3));
    assert p3.tasks == map[2 := Numbered, 3 := Stored];
    StoreStep(p3, 2);
    var p4 := Step(p3, Store(2));
    assert p4.tasks == map[2 := Stored, 3 := Stored];
    PublishStep(p4, 2);
    PublishStep(Step(p4, Publish(2)), 3);
  }

  /** Two good pushes at the same time: version 3 ends up advertised, with version 2 to roll back to. */
  lemma OverlappingPushes(ip: string)
    ensures var p := After(Start(ip), [Number(false), Number(false), Store(3), Store(2), Publish(2), Publish(3)]);
            && p.tasks == map[] && !Broken(p.value) && !Disciplined(p)
            && VersionNumber(p.lastGood.version) == 2 && VersionNumber(p.value.version) == 3
  {
    StartInv(ip);
    InSixSteps(Start(ip), Number(false), Number(false), Store(3), Store(2), Publish(2), Publish(3));
    Overlap(Start(ip));
  }
}
