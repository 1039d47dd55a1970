/** Chapter 6 at the grain of single atomic actions: each backend has its own task, and `observe` stores
    the reading, reads all the stored ones and publishes in three steps that other tasks may overtake. */
module OrcaRace {
  import opened Text
  import opened OrcaModel

  /** How far a task has got: its reading is stored, or the weights to publish are computed. */
  datatype Stage = Recorded | Drafted(endpoints: seq<Weighted>)

  datatype Race = Race(orca: Orca, tasks: map<nat, Stage>)

  datatype Action = Store(task: nat, r: Report) | Draft(task: nat) | Finish(task: nat)

  predicate Enabled(s: Race, a: Action) {
    match a
    case Store(task, _) => task !in s.tasks
    case Draft(task) => task in s.tasks && s.tasks[task].Recorded?
    case Finish(task) => task in s.tasks && s.tasks[task].Drafted?
  }

  function Act(s: Race, a: Action): Race {
    if !Enabled(s, a) then s
    else match a
      case Store(task, r) =>
        if Moved(s.orca.util, r)
        then Race(s.orca.(util := s.orca.util[r.host := r.util]), s.tasks[task := Recorded])
        else s
      case Draft(task) => s.(tasks := s.tasks[task := Drafted(Weights(s.orca.backends, s.orca.util))])
      case Finish(task) =>
        var v := s.orca.version + 1;
        Race(s.orca.(version := v, advertised := Advert(VersionName(v), s.tasks[task].endpoints)), s.tasks - {task})
  }

  function ActAll(backends: seq<Member>, acts: seq<Action>): Race {
    if acts == [] then Race(Start(backends), map[])
    else Act(ActAll(backends, acts[..|acts| - 1]), acts[|acts| - 1])
  }

  /** Run without being overtaken, the three actions are one `observe`. */
  lemma UndisturbedIsAtomic(s: Race, task: nat, r: Report)
    requires task !in s.tasks
    ensures Act(Act(Act(s, Store(task, r)), Draft(task)), Finish(task)) == Race(Observe(s.orca, r), s.tasks)
  {
    var s1 := Act(s, Store(task, r));
    if Moved(s.orca.util, r) {
      var s3 := Act(Act(s1, Draft(task)), Finish(task));
      assert s3.tasks == s.tasks;
    }
  }

  // ----- what a publication misses -----

  /** A run with its history: the reports stored, in order; how many of them each task, the last publisher,
      and the last task to compute had before it when it computed its weights. */
  datatype Trace = Trace(race: Race, stored: seq<Report>, draftedAt: map<nat, nat>, publishedAt: nat, lastDraftAt: nat)

  function Follow(t: Trace, a: Action): Trace {
    var race := Act(t.race, a);
    if !Enabled(t.race, a) then t
    else match a
      case Store(_, r) =>
        t.(race := race, stored := if Moved(t.race.orca.util, r) then t.stored + [r] else t.stored)
      case Draft(task) =>
        t.(race := race, draftedAt := t.draftedAt[task := |t.stored|], lastDraftAt := |t.stored|)
      case Finish(task) =>
        t.(race := race, publishedAt := if task in t.draftedAt then t.draftedAt[task] else 0)
  }

  function History(backends: seq<Member>, acts: seq<Action>): Trace {
    if acts == [] then Trace(Race(Start(backends), map[]), [], map[], 0, 0)
    else Follow(History(backends, acts[..|acts| - 1]), acts[|acts| - 1])
  }

  lemma {:induction false} HistoryIsRun(backends: seq<Member>, acts: seq<Action>)
    ensures History(backends, acts).race == ActAll(backends, acts)
  {
    if acts != [] {
      HistoryIsRun(backends, acts[..|acts| - 1]);
    }
  }

  /** The last reading of each host. */
  function Readings(reports: seq<Report>): map<string, real> {
    if reports == [] then map[]
    else var r := reports[|reports| - 1]; Readings(reports[..|reports| - 1])[r.host := r.util]
  }

  lemma {:induction false} ReadingsSplit(a: seq<Report>, b: seq<Report>, host: string)
    ensures host in Readings(a + b) <==> host in Readings(a) || Latest(b, host).Some?
    ensures Latest(b, host).Some? ==> Readings(a + b)[host] == Latest(b, host).value
    ensures Latest(b, host).None? && host in Readings(a) ==> Readings(a + b)[host] == Readings(a)[host]
  {
    if b == [] {
      assert a + b == a;
    } else {
      ReadingsSplit(a, b[..|b| - 1], host);
      assert (a + b)[..|a + b| - 1] == a + b[..|b| - 1];
    }
  }

  /** Each stored report was off the reading it replaced. */
  ghost predicate AllMoved(reports: seq<Report>) {
    forall i :: 0 <= i < |reports| ==> Moved(Readings(reports[..i]), reports[i])
  }

  lemma MovedAppend(reports: seq<Report>, r: Report)
    requires AllMoved(reports) && Moved(Readings(reports), r)
    ensures AllMoved(reports + [r])
    ensures Readings(reports + [r]) == Readings(reports)[r.host := r.util]
  {
    forall i | 0 <= i < |reports + [r]| ensures Moved(Readings((reports + [r])[..i]), (reports + [r])[i]) {
      assert (reports + [r])[..i] == if i < |reports| then reports[..i] else reports;
    }
    assert (reports + [r])[..|reports|] == reports;
  }

  ghost predicate FromFront(backends: seq<Member>, endpoints: seq<Weighted>, reports: seq<Report>, n: nat) {
    n <= |reports| && endpoints == Weights(backends, Readings(reports[..n]))
  }

  ghost predicate Traced(backends: seq<Member>, t: Trace) {
    && t.race.orca.backends == backends
    && t.race.orca.util == Readings(t.stored) && AllMoved(t.stored)
    && FromFront(backends, t.race.orca.advertised.endpoints, t.stored, t.publishedAt)
    && (forall k :: k in t.race.tasks && t.race.tasks[k].Drafted? ==>
          k in t.draftedAt && FromFront(backends, t.race.tasks[k].endpoints, t.stored, t.draftedAt[k]))
    && ((forall k :: k in t.race.tasks ==> t.race.tasks[k].Drafted?) ==> t.lastDraftAt == |t.stored|)
  }

  lemma FrontStays(backends: seq<Member>, endpoints: seq<Weighted>, reports: seq<Report>, n: nat, r: Report)
    requires FromFront(backends, endpoints, reports, n)
    ensures FromFront(backends, endpoints, reports + [r], n)
  {
    assert (reports + [r])[..n] == reports[..n];
  }

  lemma TracedStore(backends: seq<Member>, t: Trace, task: nat, r: Report)
    requires Traced(backends, t) && task !in t.race.tasks && Moved(t.race.orca.util, r)
    ensures Traced(backends, Follow(t, Store(task, r)))
  {
    hide FromFront, AllMoved, Readings;
    var t' := Follow(t, Store(task, r));
    MovedAppend(t.stored, r);
    FrontStays(backends, t.race.orca.advertised.endpoints, t.stored, t.publishedAt, r);
    forall k | k in t'.race.tasks && t'.race.tasks[k].Drafted?
      ensures k in t.draftedAt && FromFront(backends, t'.race.tasks[k].endpoints, t'.stored, t.draftedAt[k])
    {
      FrontStays(backends, t.race.tasks[k].endpoints, t.stored, t.draftedAt[k], r);
    }
    assert task in t'.race.tasks && !t'.race.tasks[task].Drafted?;
  }

  lemma TracedFinish(backends: seq<Member>, t: Trace, task: nat)
    requires Traced(backends, t) && Enabled(t.race, Finish(task))
    ensures Traced(backends, Follow(t, Finish(task)))
  {
    var t' := Follow(t, Finish(task));
    assert forall k :: k in t.race.tasks ==> k in t'.race.tasks || k == task;
    assert forall k :: k in t'.race.tasks ==> t'.race.tasks[k] == t.race.tasks[k];
  }

  lemma TracedStep(backends: seq<Member>, t: Trace, a: Action)
    requires Traced(backends, t)
    ensures Traced(backends, Follow(t, a))
  {
    if Enabled(t.race, a) {
      match a
      case Store(task, r) =>
        if Moved(t.race.orca.util, r) {
          TracedStore(backends, t, task, r);
        }
      case Draft(task) => assert t.stored[..|t.stored|] == t.stored;
      case Finish(task) => TracedFinish(backends, t, task);
    }
  }

  lemma {:induction false} EveryRunIsTraced(backends: seq<Member>, acts: seq<Action>)
    ensures Traced(backends, History(backends, acts))
  {
    if acts != [] {
      EveryRunIsTraced(backends, acts[..|acts| - 1]);
      TracedStep(backends, History(backends, acts[..|acts| - 1]), acts[|acts| - 1]);
    }
  }

  // ----- exactly when what is advertised is right -----

  /** The reports stored after the last publisher had computed its weights. */
  function Missed(t: Trace): seq<Report>
    requires t.publishedAt <= |t.stored|
  {
    t.stored[t.publishedAt..]
  }

  /** What the last publisher computed its weights from. */
  function Basis(t: Trace): map<string, real>
    requires t.publishedAt <= |t.stored|
  {
    Readings(t.stored[..t.publishedAt])
  }

  ghost predicate Right(o: Orca) {
    o.advertised.endpoints == Weights(o.backends, o.util)
  }

  /** In every run at this grain the weights advertised are those of the stored readings just when, for
      each backend with a report that the last publisher missed, the last such report weighs as what was
      published for it. When it missed none they are right. */
  lemma {:induction false} MissedReportsDecide(backends: seq<Member>, acts: seq<Action>)
    ensures History(backends, acts).publishedAt <= |History(backends, acts).stored|
    ensures var o, t := ActAll(backends, acts).orca, History(backends, acts);
            && o.util == Readings(t.stored)
            && o.advertised.endpoints == Weights(backends, Basis(t))
            && (Missed(t) == [] ==> Right(o))
            && (Right(o) <==>
                  forall k :: 0 <= k < |backends| && Latest(Missed(t), backends[k].host).Some? ==>
                    WeightFromUtil(Latest(Missed(t), backends[k].host).value) ==
                    WeightFromUtil(UtilOf(Basis(t), backends[k].host)))
  {
    hide WeightFromUtil, Readings, AllMoved;
    EveryRunIsTraced(backends, acts);
    HistoryIsRun(backends, acts);
    var o, t := ActAll(backends, acts).orca, History(backends, acts);
    assert t.stored == t.stored[..t.publishedAt] + Missed(t);
    forall k | 0 <= k < |backends|
      ensures Weights(backends, Basis(t))[k] == Weights(backends, o.util)[k] <==>
              (Latest(Missed(t), backends[k].host).Some? ==>
                 WeightFromUtil(Latest(Missed(t), backends[k].host).value) ==
                 WeightFromUtil(UtilOf(Basis(t), backends[k].host)))
    {
      ReadingsSplit(t.stored[..t.publishedAt], Missed(t), backends[k].host);
    }
  }

  /** No two of the reports are of one host. */
  ghost predicate OneEach(reports: seq<Report>) {
    forall i, j :: 0 <= i < j < |reports| ==> reports[i].host != reports[j].host
  }

  lemma {:induction false} LatestOfOne(reports: seq<Report>, i: nat)
    requires OneEach(reports) && i < |reports|
    ensures Latest(reports, reports[i].host) == Some(reports[i].util)
  {
    if i < |reports| - 1 {
      LatestOfOne(reports[..|reports| - 1], i);
    }
  }

  lemma {:induction false} LatestIsThere(reports: seq<Report>, host: string)
    requires Latest(reports, host).Some?
    ensures exists i :: 0 <= i < |reports| && reports[i].host == host
  {
    if reports[|reports| - 1].host != host {
      LatestIsThere(reports[..|reports| - 1], host);
      var i :| 0 <= i < |reports| - 1 && reports[..|reports| - 1][i].host == host;
      assert reports[i].host == host;
    } else {
      assert reports[|reports| - 1].host == host;
    }
  }

  /** A missed report was off what was published, if no other of its host was missed. */
  lemma MissedMoved(backends: seq<Member>, t: Trace, i: nat)
    requires Traced(backends, t) && OneEach(Missed(t)) && i < |Missed(t)|
    ensures Moved(Basis(t), Missed(t)[i])
  {
    hide Readings, Latest;
    var front, missed := t.stored[..t.publishedAt], Missed(t);
    assert Moved(Readings(t.stored[..t.publishedAt + i]), t.stored[t.publishedAt + i]);
    assert t.stored[..t.publishedAt + i] == front + missed[..i];
    ReadingsSplit(front, missed[..i], missed[i].host);
    if Latest(missed[..i], missed[i].host).Some? {
      LatestIsThere(missed[..i], missed[i].host);
    }
  }

  predicate Serves(backends: seq<Member>, host: string) {
    exists k :: 0 <= k < |backends| && backends[k].host == host
  }

  /** If no backend has two missed reports, the weights are right just when every missed report of a
      backend is weightless: at the end of the range it was at, or a first one close to half. */
  lemma {:induction false} OneMissedEach(backends: seq<Member>, acts: seq<Action>)
    requires var t := History(backends, acts);
             t.publishedAt <= |t.stored| && OneEach(Missed(t))
    ensures var t := History(backends, acts);
            Right(ActAll(backends, acts).orca) <==>
            forall i :: 0 <= i < |Missed(t)| && Serves(backends, Missed(t)[i].host) ==>
              Weightless(Basis(t), Missed(t)[i])
  {
    hide WeightFromUtil, Weightless, Right, Basis, Missed, Traced, ActAll, History, Latest;
    EveryRunIsTraced(backends, acts);
    MissedReportsDecide(backends, acts);
    var t := History(backends, acts);
    var basis, missed := Basis(t), Missed(t);
    forall i | 0 <= i < |missed|
      ensures Weightless(basis, missed[i]) <==>
              WeightFromUtil(missed[i].util) == WeightFromUtil(UtilOf(basis, missed[i].host))
      ensures Latest(missed, missed[i].host) == Some(missed[i].util)
    {
      MissedMoved(backends, t, i);
      WeightMoves(basis, missed[i]);
      LatestOfOne(missed, i);
    }
    forall k | 0 <= k < |backends| && Latest(missed, backends[k].host).Some?
      ensures exists i :: 0 <= i < |missed| && missed[i].host == backends[k].host
    {
      LatestIsThere(missed, backends[k].host);
    }
  }

  lemma {:induction false} ReadingsInRange(reports: seq<Report>)
    requires forall i :: 0 <= i < |reports| ==> InRange(reports[i].util)
    ensures forall h :: h in Readings(reports) ==> InRange(Readings(reports)[h])
  {
    if reports != [] {
      ReadingsInRange(reports[..|reports| - 1]);
    }
  }

  /** So with readings in range, and no backend with a first or a second missed report, the weights are
      right just when nothing was missed. */
  lemma {:induction false} InRangeMissIsWrong(backends: seq<Member>, acts: seq<Action>)
    requires var t := History(backends, acts);
             && t.publishedAt <= |t.stored| && OneEach(Missed(t))
             && (forall i :: 0 <= i < |t.stored| ==> InRange(t.stored[i].util))
             && (forall i :: 0 <= i < |Missed(t)| ==>
                   Missed(t)[i].host in Basis(t) && Serves(backends, Missed(t)[i].host))
    ensures Right(ActAll(backends, acts).orca) <==> Missed(History(backends, acts)) == []
  {
    hide History, ActAll, Right, Serves, Readings;
    OneMissedEach(backends, acts);
    EveryRunIsTraced(backends, acts);
    var t := History(backends, acts);
    ReadingsInRange(t.stored[..t.publishedAt]);
    if Missed(t) != [] {
      MissedMoved(backends, t, 0);
      assert !Weightless(Basis(t), Missed(t)[0]);
    }
  }

  /** When every task is done, nothing was missed just when the last to publish knew as many reports as the
      last to compute. So publications in the order of the computations end right. */
  lemma LastToDraftSettles(backends: seq<Member>, acts: seq<Action>)
    requires ActAll(backends, acts).tasks == map[]
    ensures var t := History(backends, acts);
            && t.publishedAt <= |t.stored|
            && (Missed(t) == [] <==> t.publishedAt == t.lastDraftAt)
            && (t.publishedAt == t.lastDraftAt ==> Right(ActAll(backends, acts).orca))
  {
    EveryRunIsTraced(backends, acts);
    HistoryIsRun(backends, acts);
    MissedReportsDecide(backends, acts);
  }

  // ----- a run that loses a report -----

  function Overtaken(a: Member, b: Member): seq<Action> {
    [Store(1, Report(a.host, 0.9)), Draft(1), Store(2, Report(b.host, 0.1)), Draft(2), Finish(2), Finish(1)]
  }

  lemma ActLast(backends: seq<Member>, acts: seq<Action>, a: Action)
    ensures ActAll(backends, acts + [a]) == Act(ActAll(backends, acts), a)
  {
    assert (acts + [a])[..|acts|] == acts;
  }

  lemma FirstThree(backends: seq<Member>, a: Action, b: Action, c: Action)
    ensures ActAll(backends, [a, b, c]) == Act(Act(Act(Race(Start(backends), map[]), a), b), c)
  {
    hide Act;
    assert ActAll(backends, []) == Race(Start(backends), map[]);
    ActLast(backends, [], a);
    ActLast(backends, [a], b);
    ActLast(backends, [a, b], c);
    assert [] + [a] == [a] && [a] + [b] == [a, b] && [a, b] + [c] == [a, b, c];
  }

  lemma LastThree(backends: seq<Member>, before: seq<Action>, a: Action, b: Action, c: Action)
    ensures ActAll(backends, before + [a, b, c]) == Act(Act(Act(ActAll(backends, before), a), b), c)
  {
    hide Act;
    ActLast(backends, before, a);
    ActLast(backends, before + [a], b);
    ActLast(backends, before + [a] + [b], c);
    assert before + [a] + [b] + [c] == before + [a, b, c];
  }

  /** It can be wrong for good: the weights computed before the second backend reported are published last,
      both tasks are done, and the idle backend keeps the weight of one that never reported. */
  lemma OvertakenReportIsLost(a: Member, b: Member)
    requires a.host != b.host
    ensures var s := ActAll([a, b], Overtaken(a, b));
            && s.tasks == map[] && s.orca.util == map[a.host := 0.9, b.host := 0.1]
            && s.orca.advertised.endpoints == [Weighted(a.ip, 100), Weighted(b.ip, 500)]
            && Weights([a, b], s.orca.util) == [Weighted(a.ip, 100), Weighted(b.ip, 900)]
  {
    var x, y, z := Store(1, Report(a.host, 0.9)), Draft(1), Store(2, Report(b.host, 0.1));
    FirstThree([a, b], x, y, z);
    LastThree([a, b], [x, y, z], Draft(2), Finish(2), Finish(1));
    assert Overtaken(a, b) == [x, y, z] + [Draft(2), Finish(2), Finish(1)];
    assert WeightFromUtil(0.9) == 100 && WeightFromUtil(0.1) == 900 && WeightFromUtil(0.5) == 500;
    hide WeightFromUtil;
    var early, late := map[a.host := 0.9], map[a.host := 0.9, b.host := 0.1];
    assert Weights([a, b], early) == [Weighted(a.ip, 100), Weighted(b.ip, 500)];
    assert Weights([a, b], late) == [Weighted(a.ip, 100), Weighted(b.ip, 900)];
    hide Weights;
    var s3 := ActAll([a, b], [x, y, z]);
    assert s3.orca.util == late && s3.orca.backends == [a, b];
    assert s3.tasks == map[1 := Drafted(Weights([a, b], early)), 2 := Recorded];
  }
}
