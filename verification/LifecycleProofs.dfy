/** What every run of the controller's critical sections keeps: records and containers agree, and
    the gauge is conserved. */
module LifecycleProofs {
  import opened Wrappers
  import opened Records
  import opened Lifecycle

  /** One critical section under the controller's lock, or one step that needs no lock. Any interleaving of
      concurrent calls, matrix operations included, is a sequence of these, except that Reconcile takes no lock: a
      DoImport is a step of a Reconcile that overlaps no other call. Module Reconciling lets it overlap. */
  datatype Section =
    | DoCreate(req: CreateRequest, faults: CreateFaults)
    | DoStop(name: Name, ok: bool)
    | DoStart(name: Name, ok: bool)
    | DoDestroy(name: Name, ok: bool)
    | DoRestore(source: Name, name: Name, faults: CreateFaults)
    | DoImport(id: Id)
    | SaveMatrix(name: Name, matrix: Matrix)
    | DropMatrix(name: Name)
    | AddNetwork(network: string)
    | DropNetwork(network: string)

  ghost function Apply(w: World, s: Section): World {
    match s
    case DoCreate(req, f) => Create(w, req, f).0
    case DoStop(n, ok) => Stop(w, n, ok).0
    case DoStart(n, ok) => Start(w, n, ok).0
    case DoDestroy(n, ok) => Destroy(w, n, ok).0
    case DoRestore(source, n, f) => Restore(w, source, n, f).0
    case DoImport(id) => Import(w, id)
    case SaveMatrix(n, mx) => w.(matrices := w.matrices[n := mx])
    case DropMatrix(n) => w.(matrices := w.matrices - {n})
    case AddNetwork(net) => w.(networks := w.networks + {net})
    case DropNetwork(net) => w.(networks := w.networks - {net})
  }

  ghost function Run(w: World, sections: seq<Section>): World
    decreases |sections|
  {
    if sections == [] then w else Run(Apply(w, sections[0]), sections[1..])
  }

  /** A new process: nothing recorded yet, containers of an earlier process may be there. */
  ghost predicate Startup(w: World) {
    && w.store == map[] && w.matrices == map[] && w.gauge == 0 && w.imported == 0
    && forall id :: id in w.containers ==> id < w.nextId
  }

  // ---- Records and containers agree ----

  /** The container state a record's state promises; Error promises nothing. */
  predicate Promises(st: SandboxState, c: ContainerState) {
    match st
    case Running => c == Up
    case Ready => c == Up
    case Stopped => c == Exited
    case Pending => c == Fresh
    case Creating => false
    case Error => true
  }

  predicate RecordAgrees(w: World, n: Name)
    requires n in w.store
  {
    var sb := w.store[n];
    && sb.state != Creating
    && (sb.runtimeId.Some? ==>
          && sb.runtimeId.value < w.nextId
          && (sb.runtimeId.value in w.containers ==> w.containers[sb.runtimeId.value].owner == n))
    && (sb.state != Error ==>
          && sb.runtimeId.Some?
          && sb.runtimeId.value in w.containers
          && Promises(sb.state, w.containers[sb.runtimeId.value].state))
  }

  /** Two records never name the same container. */
  ghost predicate Distinct(store: map<Name, Sandbox>) {
    forall m, n :: m in store && n in store && m != n && store[m].runtimeId.Some? ==>
                     store[m].runtimeId != store[n].runtimeId
  }

  ghost predicate Agrees(w: World) {
    && (forall n :: n in w.store ==> RecordAgrees(w, n))
    && Distinct(w.store)
    && (forall id :: id in w.containers ==> id < w.nextId)
  }

  /** The two worlds differ at most in the record `n`, in the container `id` and in the matrices. */
  ghost predicate TouchesOnly(w: World, w': World, n: Name, id: Id) {
    && (forall m :: m != n ==> (m in w'.store <==> m in w.store))
    && (forall m :: m != n && m in w.store ==> w'.store[m] == w.store[m])
    && (forall c :: c != id ==> (c in w'.containers <==> c in w.containers))
    && (forall c :: c != id && c in w.containers ==> w'.containers[c] == w.containers[c])
    && w.nextId <= w'.nextId && id < w'.nextId
  }

  /** No record but `n` knows the container `id`. */
  ghost predicate KnownOnlyTo(w: World, n: Name, id: Id) {
    forall m :: m in w.store && m != n ==> w.store[m].runtimeId != Some(id)
  }

  lemma TouchAgrees(w: World, w': World, n: Name, id: Id)
    requires Agrees(w) && TouchesOnly(w, w', n, id) && KnownOnlyTo(w, n, id)
    requires n in w'.store ==> RecordAgrees(w', n) && w'.store[n].runtimeId in {None, Some(id)}
    ensures Agrees(w')
  {
    forall m | m in w'.store
      ensures RecordAgrees(w', m)
    {
      assert m != n ==> RecordAgrees(w, m);
    }
  }

  lemma NextIdIsUnknown(w: World, n: Name)
    requires Agrees(w)
    ensures KnownOnlyTo(w, n, w.nextId)
  {
    forall m | m in w.store && m != n
      ensures w.store[m].runtimeId != Some(w.nextId)
    {
      assert RecordAgrees(w, m);
    }
  }

  /** What the last part of a creation leaves. */
  lemma FinishTouches(w: World, n: Name, sb: Sandbox, id: Id, hasProbe: bool, f: CreateFaults)
    ensures var w' := Finish(w, n, sb, id, hasProbe, f).0;
            && n in w'.store && w'.store == w.store[n := w'.store[n]] && w'.nextId == w.nextId
            && w'.store[n].runtimeId == sb.runtimeId
            && (w'.containers == w.containers || w'.containers == w.containers - {id})
            && (w'.store[n].state == Error ||
                  (w'.store[n].state in {sb.state, Ready} && w'.containers == w.containers))
  {
    if Finish(w, n, sb, id, hasProbe, f).1 != Ok {
      GiveUpTouches(w, n, sb, id, f.destroy);
      hide GiveUp;
    }
  }

  lemma GiveUpTouches(w: World, n: Name, sb: Sandbox, id: Id, destroyOk: bool)
    ensures var w' := GiveUp(w, n, sb, id, destroyOk);
            && w'.store == w.store[n := sb.(state := Error)] && w'.nextId == w.nextId
            && (w'.containers == w.containers || w'.containers == w.containers - {id})
  {
  }

  lemma ProvisionTouches(w: World, n: Name, draft: Sandbox, hasProbe: bool, f: CreateFaults)
    requires f.create && draft.runtimeId.None?
    ensures var w' := Provision(w, n, draft, hasProbe, f).0;
            && TouchesOnly(w, w', n, w.nextId)
            && n in w'.store && w'.store[n].runtimeId in {None, Some(w.nextId)}
            && (w.nextId in w'.containers ==> w'.containers[w.nextId].owner == n)
            && (w'.store[n].state == Error || (w'.store[n].state in {Running, Ready}
                  && w'.store[n].runtimeId == Some(w.nextId)
                  && w.nextId in w'.containers && w'.containers[w.nextId].state == Up))
  {
    if f.start {
      var w2 := SetState(Launch(Save(w, n, draft), n), w.nextId, Up);
      FinishTouches(w2, n, draft.(state := Running, runtimeId := Some(w.nextId)), w.nextId, hasProbe, f);
    }
    hide Finish;
  }

  lemma ProvisionAgrees(w: World, n: Name, draft: Sandbox, hasProbe: bool, f: CreateFaults)
    requires Agrees(w) && n !in w.store && draft.state == Creating && draft.runtimeId.None?
    ensures Agrees(Provision(w, n, draft, hasProbe, f).0)
  {
    var w' := Provision(w, n, draft, hasProbe, f).0;
    if f.create {
      hide Provision, Agrees;
      ProvisionTouches(w, n, draft, hasProbe, f);
      NextIdIsUnknown(w, n);
      TouchAgrees(w, w', n, w.nextId);
    } else {
      forall m | m in w'.store
        ensures RecordAgrees(w', m)
      {
        assert m != n ==> RecordAgrees(w, m);
      }
    }
  }

  lemma OwnContainer(w: World, n: Name)
    requires Agrees(w) && n in w.store && w.store[n].runtimeId.Some?
    ensures w.store[n].runtimeId.value < w.nextId && KnownOnlyTo(w, n, w.store[n].runtimeId.value)
  {
    assert RecordAgrees(w, n);
  }

  lemma StopAgrees(w: World, n: Name, ok: bool)
    requires Agrees(w)
    ensures Agrees(Stop(w, n, ok).0)
  {
    if Stop(w, n, ok).1 == Ok {
      assert RecordAgrees(w, n);
      OwnContainer(w, n);
      TouchAgrees(w, Stop(w, n, ok).0, n, w.store[n].runtimeId.value);
    }
  }

  lemma StartAgrees(w: World, n: Name, ok: bool)
    requires Agrees(w)
    ensures Agrees(Start(w, n, ok).0)
  {
    if Start(w, n, ok).1 == Ok {
      assert RecordAgrees(w, n);
      OwnContainer(w, n);
      TouchAgrees(w, Start(w, n, ok).0, n, w.store[n].runtimeId.value);
    }
  }

  lemma DestroyAgrees(w: World, n: Name, ok: bool)
    requires Agrees(w)
    ensures Agrees(Destroy(w, n, ok).0)
  {
    var w' := Destroy(w, n, ok).0;
    if w' != w && w.store[n].runtimeId.Some? {
      OwnContainer(w, n);
      TouchAgrees(w, w', n, w.store[n].runtimeId.value);
    } else if w' != w {
      forall m | m in w'.store
        ensures RecordAgrees(w', m)
      {
        assert RecordAgrees(w, m);
      }
    }
  }

  lemma ImportAgrees(w: World, id: Id)
    requires Agrees(w)
    ensures Agrees(Import(w, id))
  {
    if id in w.containers && w.containers[id].owner !in w.store {
      var n := w.containers[id].owner;
      forall m | m in w.store && m != n
        ensures w.store[m].runtimeId != Some(id)
      {
        assert RecordAgrees(w, m);
      }
      if n != "" {
        TouchAgrees(w, Import(w, id), n, id);
      }
    }
  }

  /** Store and runtime agree after every critical section. */
  lemma SectionAgrees(w: World, s: Section)
    requires Agrees(w)
    ensures Agrees(Apply(w, s))
  {
    hide Provision, Stop, Start, Destroy, Import;
    match s
    case DoCreate(req, f) =>
      if Admission(w, req) == Ok {
        ProvisionAgrees(w, req.name, Draft(w, req), w.env.blueprints[req.blueprint].hasProbe, f);
      }
    case DoRestore(source, n, f) =>
      if source in w.store && n !in w.store {
        ProvisionAgrees(w, n, Sandbox(Creating, None, "", w.store[source].resources), false, f.(setup := []));
      }
    case DoImport(id) => ImportAgrees(w, id);
    case DoStop(n, ok) => StopAgrees(w, n, ok);
    case DoStart(n, ok) => StartAgrees(w, n, ok);
    case DoDestroy(n, ok) => DestroyAgrees(w, n, ok);
    case _ =>
      var w' := Apply(w, s);
      assert forall m :: m in w.store ==> RecordAgrees(w, m) ==> RecordAgrees(w', m);
  }

  lemma {:induction false} RunAgrees(w: World, sections: seq<Section>)
    requires Agrees(w)
    ensures Agrees(Run(w, sections))
    decreases |sections|
  {
    hide Apply, Agrees;
    if sections != [] {
      SectionAgrees(w, sections[0]);
      RunAgrees(Apply(w, sections[0]), sections[1..]);
    }
  }

  /** What Reconcile does: after it every listed container that carries a name is tracked under that name,
      and no container and no existing record has changed. */
  lemma {:induction false} ReconcileTracksAll(w: World, listed: seq<Id>)
    requires Agrees(w)
    ensures var w' := Reconcile(w, listed);
            && Agrees(w') && w'.containers == w.containers && w'.gauge == w.gauge
            && (forall n :: n in w.store ==> n in w'.store && w'.store[n] == w.store[n])
            && (forall id :: id in listed && id in w.containers && w.containers[id].owner != "" ==>
                  w.containers[id].owner in w'.store)
    decreases |listed|
  {
    hide Agrees;
    if listed != [] {
      ImportAgrees(w, listed[0]);
      ReconcileTracksAll(Import(w, listed[0]), listed[1..]);
      assert forall id :: id in listed ==> id == listed[0] || id in listed[1..];
    }
  }

  // ---- Live containers and placed records are in bijection ----

  /** The record stands for a container. */
  predicate IsPlaced(sb: Sandbox) {
    IsActive(sb) || sb.state == Stopped
  }

  ghost predicate NoOrphans(w: World) {
    forall id :: id in w.containers ==>
                   var n := w.containers[id].owner;
                   n in w.store && w.store[n].runtimeId == Some(id) && IsPlaced(w.store[n])
  }

  /** Cleanup calls succeed, and nothing is imported. */
  predicate Clean(s: Section) {
    match s
    case DoCreate(_, f) => f.destroy
    case DoRestore(_, _, f) => f.destroy
    case DoImport(_) => false
    case _ => true
  }

  /** A provision that succeeds adds one container and one active record that names it. */
  lemma ProvisionOk(w: World, n: Name, draft: Sandbox, hasProbe: bool, f: CreateFaults) returns (sb: Sandbox)
    requires Provision(w, n, draft, hasProbe, f).1 == Ok
    ensures var w' := Provision(w, n, draft, hasProbe, f).0;
            && w' == w.(store := w.store[n := sb], containers := w.containers[w.nextId := Container(n, Up)],
                        nextId := w.nextId + 1, gauge := w.gauge + 1)
            && IsActive(sb) && sb.runtimeId == Some(w.nextId)
  {
    sb := Provision(w, n, draft, hasProbe, f).0.store[n];
    assert w.store[n := draft][n := sb] == w.store[n := sb];
    assert w.containers[w.nextId := Container(n, Fresh)][w.nextId := Container(n, Up)]
        == w.containers[w.nextId := Container(n, Up)];
  }

  /** A provision that fails and cleans up leaves an Error record and no container. */
  lemma ProvisionFails(w: World, n: Name, draft: Sandbox, hasProbe: bool, f: CreateFaults) returns (sb: Sandbox)
    requires Provision(w, n, draft, hasProbe, f).1 != Ok && f.destroy && w.nextId !in w.containers
    ensures var w' := Provision(w, n, draft, hasProbe, f).0;
            w' == w.(store := w.store[n := sb], nextId := w'.nextId) && sb.state == Error && w'.nextId >= w.nextId
  {
    var w' := Provision(w, n, draft, hasProbe, f).0;
    sb := w'.store[n];
    assert w.store[n := draft][n := sb] == w.store[n := sb];
    assert w'.containers == w.containers;
  }

  /** `w` with the sandbox `n` freshly created. */
  function With(w: World, n: Name, sb: Sandbox): World {
    w.(store := w.store[n := sb], containers := w.containers[w.nextId := Container(n, Up)],
       nextId := w.nextId + 1, gauge := w.gauge + 1)
  }

  lemma ProvisionNoOrphans(w: World, n: Name, draft: Sandbox, hasProbe: bool, f: CreateFaults)
    requires Agrees(w) && NoOrphans(w) && n !in w.store && draft.state == Creating && draft.runtimeId.None? && f.destroy
    ensures NoOrphans(Provision(w, n, draft, hasProbe, f).0)
  {
    assert w.nextId !in w.containers;
    hide Agrees, Provision;
    if Provision(w, n, draft, hasProbe, f).1 == Ok {
      var sb := ProvisionOk(w, n, draft, hasProbe, f);
    } else {
      var sb := ProvisionFails(w, n, draft, hasProbe, f);
    }
  }

  lemma DestroyNoOrphans(w: World, n: Name, ok: bool)
    requires Agrees(w) && NoOrphans(w)
    ensures NoOrphans(Destroy(w, n, ok).0)
  {
    if n in w.store {
      assert RecordAgrees(w, n);
    }
  }

  lemma StopStartNoOrphans(w: World, n: Name, ok: bool)
    requires NoOrphans(w)
    ensures NoOrphans(Stop(w, n, ok).0) && NoOrphans(Start(w, n, ok).0)
  {
  }

  lemma SectionNoOrphans(w: World, s: Section)
    requires Agrees(w) && NoOrphans(w) && Clean(s)
    ensures NoOrphans(Apply(w, s))
  {
    hide Provision, Stop, Start, Destroy, Import;
    match s
    case DoCreate(req, f) =>
      if Admission(w, req) == Ok {
        ProvisionNoOrphans(w, req.name, Draft(w, req), w.env.blueprints[req.blueprint].hasProbe, f);
      }
    case DoRestore(source, n, f) =>
      if source in w.store && n !in w.store {
        ProvisionNoOrphans(w, n, Sandbox(Creating, None, "", w.store[source].resources), false, f.(setup := []));
      }
    case DoStop(n, ok) => StopStartNoOrphans(w, n, ok);
    case DoStart(n, ok) => StopStartNoOrphans(w, n, ok);
    case DoDestroy(n, ok) => DestroyNoOrphans(w, n, ok);
    case _ =>
  }

  lemma {:induction false} RunNoOrphans(w: World, sections: seq<Section>)
    requires Agrees(w) && NoOrphans(w) && forall s :: s in sections ==> Clean(s)
    ensures NoOrphans(Run(w, sections))
    decreases |sections|
  {
    hide Apply, Agrees, NoOrphans, Clean;
    if sections != [] {
      SectionAgrees(w, sections[0]);
      SectionNoOrphans(w, sections[0]);
      RunNoOrphans(Apply(w, sections[0]), sections[1..]);
    }
  }

  /** From an empty system, with cleanup calls that succeed, the live containers are exactly those
      the Running, Ready and Stopped records name, and each is named once. */
  lemma LiveContainersAreRecorded(w: World, sections: seq<Section>)
    requires Startup(w) && w.containers == map[] && forall s :: s in sections ==> Clean(s)
    ensures var w' := Run(w, sections);
            && Distinct(w'.store)
            && forall id :: id in w'.containers <==>
                 exists n :: n in w'.store && IsPlaced(w'.store[n]) && w'.store[n].runtimeId == Some(id)
  {
    hide Run;
    RunAgrees(w, sections);
    RunNoOrphans(w, sections);
    var w' := Run(w, sections);
    forall n | n in w'.store && IsPlaced(w'.store[n])
      ensures w'.store[n].runtimeId.Some? && w'.store[n].runtimeId.value in w'.containers
    {
      assert RecordAgrees(w', n);
    }
  }

  // ---- The active gauge ----

  function ActiveNames(store: map<Name, Sandbox>): set<Name> {
    set n | n in store && IsActive(store[n])
  }

  /** What the gauge shows, plus what the reconciler added without telling it, is what is active. */
  predicate GaugeBalanced(w: World) {
    w.gauge + w.imported == |ActiveNames(w.store)|
  }

  lemma ActiveSave(store: map<Name, Sandbox>, n: Name, sb: Sandbox)
    ensures ActiveNames(store[n := sb]) == if IsActive(sb) then ActiveNames(store) + {n} else ActiveNames(store) - {n}
  {
  }

  lemma ActiveDelete(store: map<Name, Sandbox>, n: Name)
    ensures ActiveNames(store - {n}) == ActiveNames(store) - {n}
  {
  }

  /** A provision saves one record, with the team and resources of its draft, and counts it if it is active. */
  lemma ProvisionRecord(w: World, n: Name, draft: Sandbox, hasProbe: bool, f: CreateFaults) returns (sb: Sandbox)
    ensures var (w', outcome) := Provision(w, n, draft, hasProbe, f);
            && w'.store == w.store[n := sb] && w'.imported == w.imported
            && w'.matrices == w.matrices && w'.sessions == w.sessions && w'.networks == w.networks && w'.env == w.env
            && sb.team == draft.team && sb.resources == draft.resources
            && (IsActive(sb) <==> outcome == Ok) && (sb.state == Error <==> outcome != Ok)
            && w'.gauge == (if outcome == Ok then w.gauge + 1 else w.gauge)
  {
    var placed := draft.(state := Running, runtimeId := Some(w.nextId));
    if !f.create || !f.start {
      sb := draft.(state := Error);
    } else if !AllPass(f.setup) || (hasProbe && !f.probe) {
      sb := placed.(state := Error);
    } else {
      sb := placed.(state := if hasProbe then Ready else Running);
    }
    assert w.store[n := draft][n := sb] == w.store[n := sb];
  }

  lemma ProvisionGauge(w: World, n: Name, draft: Sandbox, hasProbe: bool, f: CreateFaults)
    requires GaugeBalanced(w) && n !in w.store
    ensures GaugeBalanced(Provision(w, n, draft, hasProbe, f).0)
  {
    var sb := ProvisionRecord(w, n, draft, hasProbe, f);
    hide Provision;
    ActiveSave(w.store, n, sb);
    assert n !in ActiveNames(w.store);
  }

  lemma StopStartGauge(w: World, n: Name, ok: bool)
    requires GaugeBalanced(w)
    ensures GaugeBalanced(Stop(w, n, ok).0) && GaugeBalanced(Start(w, n, ok).0)
  {
    if n in w.store {
      ActiveSave(w.store, n, w.store[n].(state := Stopped));
      ActiveSave(w.store, n, w.store[n].(state := Running));
      assert n in ActiveNames(w.store) <==> IsActive(w.store[n]);
    }
  }

  lemma DestroyGauge(w: World, n: Name, ok: bool)
    requires GaugeBalanced(w)
    ensures GaugeBalanced(Destroy(w, n, ok).0)
  {
    if n in w.store {
      ActiveDelete(w.store, n);
      assert n in ActiveNames(w.store) <==> IsActive(w.store[n]);
    }
  }

  lemma ImportGauge(w: World, id: Id)
    requires GaugeBalanced(w)
    ensures GaugeBalanced(Import(w, id))
  {
    if Import(w, id) != w {
      var n := w.containers[id].owner;
      ActiveSave(w.store, n, Import(w, id).store[n]);
      assert n !in ActiveNames(w.store);
    }
  }

  lemma SectionGauge(w: World, s: Section)
    requires GaugeBalanced(w)
    ensures GaugeBalanced(Apply(w, s))
  {
    match s
    case DoCreate(req, f) =>
      if Admission(w, req) == Ok {
        ProvisionGauge(w, req.name, Draft(w, req), w.env.blueprints[req.blueprint].hasProbe, f);
      }
    case DoRestore(source, n, f) =>
      if source in w.store && n !in w.store {
        ProvisionGauge(w, n, Sandbox(Creating, None, "", w.store[source].resources), false, f.(setup := []));
      }
    case DoImport(id) => ImportGauge(w, id);
    case DoStop(n, ok) => StopStartGauge(w, n, ok);
    case DoStart(n, ok) => StopStartGauge(w, n, ok);
    case DoDestroy(n, ok) => DestroyGauge(w, n, ok);
    case _ =>
  }

  /** Over every run the gauge plus the imported Running records is the number of active records. */
  lemma {:induction false} RunGauge(w: World, sections: seq<Section>)
    requires GaugeBalanced(w)
    ensures GaugeBalanced(Run(w, sections))
    decreases |sections|
  {
    hide Apply, GaugeBalanced;
    if sections != [] {
      SectionGauge(w, sections[0]);
      RunGauge(Apply(w, sections[0]), sections[1..]);
    }
  }

  const NO_FAULTS := CreateFaults(true, true, [], true, true)

  /** What the controller promises at the end of each section. */
  ghost predicate Sound(w: World) {
    Agrees(w) && GaugeBalanced(w)
  }

  lemma SectionSound(w: World, s: Section)
    ensures Sound(w) ==> Sound(Apply(w, s))
  {
    hide Agrees, GaugeBalanced, Apply;
    if Sound(w) {
      SectionAgrees(w, s);
      SectionGauge(w, s);
    }
  }

  lemma {:induction false} RunSound(w: World, sections: seq<Section>)
    ensures Sound(w) ==> Sound(Run(w, sections))
  {
    hide Agrees, GaugeBalanced, Run;
    if Sound(w) {
      RunAgrees(w, sections);
      RunGauge(w, sections);
    }
  }

  lemma {:induction false} ReconcileSound(w: World, listed: seq<Id>)
    ensures Sound(w) ==> Sound(Reconcile(w, listed))
    decreases |listed|
  {
    hide Agrees, GaugeBalanced, Import;
    if listed != [] {
      SectionSound(w, DoImport(listed[0]));
      ReconcileSound(Import(w, listed[0]), listed[1..]);
    }
  }
}
