/** When each operation of the controller succeeds, which failure it reports otherwise, and what it leaves: in terms of
    the records, the containers and the answers of the runtime alone. */
module LifecycleOutcomes {
  import opened Wrappers
  import opened Records
  import opened Quota
  import opened Lifecycle
  import opened LifecycleProofs
  import opened QuotaProofs

  // ---- Create ----

  /** The reasons to refuse a creation, in order. */
  lemma AdmissionOutcome(w: World, req: CreateRequest)
    ensures var a := Admission(w, req);
            var valid := req.blueprint in w.env.blueprints;
            && (a == AlreadyExists <==> req.name in w.store)
            && (a == InvalidBlueprint <==> req.name !in w.store && !valid)
            && (req.name !in w.store && valid ==>
                  var asked := RequestFor(w.env.blueprints[req.blueprint]);
                  var refusal := CheckQuota(w.env.quotas, w.store, w.matrices, w.sessions, req.team, asked);
                  var checked := w.env.enforced && req.team != "";
                  && (a.Refused? <==> checked && refusal.Some?)
                  && (a.Refused? ==> refusal == Some(a.refusal))
                  && (a == BadWorkspace <==> (checked ==> refusal.None?) && !req.workspaceAllowed)
                  && (a == Ok <==> (checked ==> refusal.None?) && req.workspaceAllowed))
  {
    hide CheckQuota;
  }

  /** An amount that is set as a limit and asked for fits. */
  predicate Fits(limit: Amount, amount: Amount, used: int) {
    limit.Unset? || amount.Unset? || (limit.Units? && amount.Units? && used + amount.value <= limit.value)
  }

  /** A team's request for a blueprint is granted if and only if one more sandbox, and each amount the blueprint asks for,
      fit on top of what the team's records use. */
  lemma GrantedIffFits(w: World, team: string, info: BlueprintInfo)
    requires team in w.env.quotas && NoWrap(w.store, team, RequestFor(info))
    ensures var q := w.env.quotas[team];
            CheckQuota(w.env.quotas, w.store, w.matrices, w.sessions, team, RequestFor(info)).None? <==>
              && (q.maxSandboxes > 0 ==> Total(w.store, team, Sandboxes) + 1 <= q.maxSandboxes)
              && Fits(q.maxCpu, info.resources.cpu, Total(w.store, team, Cpu))
              && Fits(q.maxMemory, info.resources.memory, Total(w.store, team, Memory))
              && Fits(q.maxDisk, info.resources.disk, Total(w.store, team, Disk))
              && (q.maxGpus > 0 && info.resources.gpus > 0 ==> Total(w.store, team, Gpus) + info.resources.gpus <= q.maxGpus)
  {
    var req := RequestFor(info);
    CheckQuotaExact(w.env.quotas, w.store, w.matrices, w.sessions, team, req);
    hide CheckQuota, Total;
    var first := FirstBroken(w.env.quotas[team], w.store, w.matrices, w.sessions, team, req);
    assert first.None? ==> forall c: Check :: !Breaks(w.env.quotas[team], w.store, w.matrices, w.sessions, team, req, c);
  }

  /** Every runtime call that this creation makes succeeds. */
  predicate AllSucceed(f: CreateFaults, hasProbe: bool) {
    f.create && f.start && (forall i :: 0 <= i < |f.setup| ==> f.setup[i]) && (hasProbe ==> f.probe)
  }

  /** A creation succeeds if and only if it is admitted and every runtime call it makes succeeds. */
  lemma CreateOkIff(w: World, req: CreateRequest, f: CreateFaults)
    ensures Create(w, req, f).1 == Ok <==>
              && Admission(w, req) == Ok && req.blueprint in w.env.blueprints
              && AllSucceed(f, w.env.blueprints[req.blueprint].hasProbe)
  {
    if Admission(w, req) == Ok {
      AdmissionKnowsBlueprint(w, req);
    }
    hide Admission;
  }

  /** Otherwise it reports the first thing that went wrong. */
  lemma CreateReportsFirstFailure(w: World, req: CreateRequest, f: CreateFaults)
    ensures Admission(w, req) != Ok ==> Create(w, req, f) == (w, Admission(w, req))
    ensures Admission(w, req) == Ok ==>
              var outcome := Create(w, req, f).1;
              var setUp := forall i :: 0 <= i < |f.setup| ==> f.setup[i];
              && (outcome == CreateFailed <==> !f.create)
              && (outcome == StartFailed <==> f.create && !f.start)
              && (outcome == SetupFailed <==> f.create && f.start && !setUp)
              && (outcome == ProbeFailed <==>
                    f.create && f.start && setUp && w.env.blueprints[req.blueprint].hasProbe && !f.probe)
  {
    if Admission(w, req) == Ok {
      AdmissionKnowsBlueprint(w, req);
    }
    hide Admission;
  }

  /** What an admitted creation that succeeds leaves: a record that is Ready exactly when there is a probe, and the
      container it names, which runs. */
  lemma CreateLeaves(w: World, req: CreateRequest, f: CreateFaults)
    requires Create(w, req, f).1 == Ok
    ensures req.blueprint in w.env.blueprints
    ensures var info := w.env.blueprints[req.blueprint];
            var sb := Sandbox(if info.hasProbe then Ready else Running, Some(w.nextId), req.team, info.resources);
            Create(w, req, f).0 ==
              w.(store := w.store[req.name := sb], containers := w.containers[w.nextId := Container(req.name, Up)],
                 nextId := w.nextId + 1, gauge := w.gauge + 1)
  {
    CreateOkIff(w, req, f);
    AdmissionKnowsBlueprint(w, req);
    hide Admission;
    var info := w.env.blueprints[req.blueprint];
    var sb := ProvisionOk(w, req.name, Draft(w, req), info.hasProbe, f);
  }

  /** What an admitted creation that fails leaves: an Error record, which keeps the id of a container that had been
      started; and the container itself only if it could not be destroyed. */
  lemma FailedCreateLeaves(w: World, req: CreateRequest, f: CreateFaults)
    requires Admission(w, req) == Ok && Create(w, req, f).1 != Ok && w.nextId !in w.containers
    ensures req.blueprint in w.env.blueprints
    ensures var w' := Create(w, req, f).0;
            var info := w.env.blueprints[req.blueprint];
            var sb := Sandbox(Error, if f.create && f.start then Some(w.nextId) else None, req.team, info.resources);
            && w'.store == w.store[req.name := sb] && w'.gauge == w.gauge
            && w'.containers ==
               (if !f.create || f.destroy then w.containers
                else w.containers[w.nextId := Container(req.name, if f.start then Up else Fresh)])
  {
    AdmissionKnowsBlueprint(w, req);
    hide Admission;
    var info := w.env.blueprints[req.blueprint];
    var draft := Draft(w, req);
    if f.create && f.start {
      FailedFinish(w, req.name, draft, info.hasProbe, f);
    } else if f.create {
      hide Finish;
      assert w.store[req.name := draft][req.name := draft.(state := Error)] == w.store[req.name := draft.(state := Error)];
      assert w.containers[w.nextId := Container(req.name, Fresh)] - {w.nextId} == w.containers;
    }
  }

  lemma FailedFinish(w: World, n: Name, draft: Sandbox, hasProbe: bool, f: CreateFaults)
    requires f.create && f.start && Provision(w, n, draft, hasProbe, f).1 != Ok && w.nextId !in w.containers
    ensures var w' := Provision(w, n, draft, hasProbe, f).0;
            && w'.store == w.store[n := draft.(state := Error, runtimeId := Some(w.nextId))] && w'.gauge == w.gauge
            && w'.containers == if f.destroy then w.containers else w.containers[w.nextId := Container(n, Up)]
  {
    var sb := draft.(state := Error, runtimeId := Some(w.nextId));
    assert w.store[n := draft][n := sb] == w.store[n := sb];
    var placed := w.containers[w.nextId := Container(n, Fresh)][w.nextId := Container(n, Up)];
    assert placed == w.containers[w.nextId := Container(n, Up)];
    assert placed - {w.nextId} == w.containers;
  }

  // ---- Stop, Start, Destroy ----

  /** A stop succeeds if and only if the sandbox is Running or Ready and the runtime stops it. */
  lemma StopOutcome(w: World, n: Name, ok: bool)
    requires Agrees(w)
    ensures var (w', outcome) := Stop(w, n, ok);
            && (outcome == NotFound <==> n !in w.store)
            && (outcome == WrongState <==> n in w.store && w.store[n].state !in {Running, Ready})
            && (outcome == StopFailed <==> n in w.store && w.store[n].state in {Running, Ready} && !ok)
            && (outcome == Ok <==> n in w.store && w.store[n].state in {Running, Ready} && ok)
            && (outcome != Ok ==> w' == w)
            && (outcome == Ok ==>
                  && w'.store == w.store[n := w.store[n].(state := Stopped)] && w'.gauge == w.gauge - 1
                  && w.store[n].runtimeId.Some? && w.store[n].runtimeId.value in w.containers
                  && w'.containers == w.containers[w.store[n].runtimeId.value := Container(n, Exited)])
  {
    if n in w.store {
      assert RecordAgrees(w, n);
    }
  }

  /** A start succeeds if and only if the sandbox is Stopped and the runtime starts it. */
  lemma StartOutcome(w: World, n: Name, ok: bool)
    requires Agrees(w)
    ensures var (w', outcome) := Start(w, n, ok);
            && (outcome == NotFound <==> n !in w.store)
            && (outcome == WrongState <==> n in w.store && w.store[n].state != Stopped)
            && (outcome == StartFailed <==> n in w.store && w.store[n].state == Stopped && !ok)
            && (outcome == Ok <==> n in w.store && w.store[n].state == Stopped && ok)
            && (outcome != Ok ==> w' == w)
            && (outcome == Ok ==>
                  && w'.store == w.store[n := w.store[n].(state := Running)] && w'.gauge == w.gauge + 1
                  && w.store[n].runtimeId.Some? && w.store[n].runtimeId.value in w.containers
                  && w'.containers == w.containers[w.store[n].runtimeId.value := Container(n, Up)])
  {
    if n in w.store {
      assert RecordAgrees(w, n);
    }
  }

  /** A destroy succeeds if and only if there is a record, and its container, if it names one, is destroyed. */
  lemma DestroyOutcome(w: World, n: Name, ok: bool)
    ensures var (w', outcome) := Destroy(w, n, ok);
            && (outcome == NotFound <==> n !in w.store)
            && (outcome == DestroyFailed <==> n in w.store && w.store[n].runtimeId.Some? && !ok)
            && (outcome == Ok <==> n in w.store && (w.store[n].runtimeId.Some? ==> ok))
            && (outcome != Ok ==> w' == w)
            && (outcome == Ok ==>
                  && w'.store == w.store - {n}
                  && w'.gauge == (if w.store[n].state in {Running, Ready} then w.gauge - 1 else w.gauge)
                  && w'.containers ==
                     if w.store[n].runtimeId.Some? then w.containers - {w.store[n].runtimeId.value} else w.containers)
  {
  }

  // ---- Restore and Reconcile ----

  /** A restore succeeds if and only if the source is there, the new name is free, and the runtime restores and starts the
      container; setup and probe are skipped, and the new record has the source's resources and no team. */
  lemma RestoreOutcome(w: World, source: Name, n: Name, f: CreateFaults)
    ensures var (w', outcome) := Restore(w, source, n, f);
            && (outcome == NotFound <==> source !in w.store)
            && (outcome == AlreadyExists <==> source in w.store && n in w.store)
            && (outcome == CreateFailed <==> source in w.store && n !in w.store && !f.create)
            && (outcome == StartFailed <==> source in w.store && n !in w.store && f.create && !f.start)
            && (outcome == Ok <==> source in w.store && n !in w.store && f.create && f.start)
            && (outcome in {NotFound, AlreadyExists} ==> w' == w)
            && (outcome in {CreateFailed, StartFailed} ==>
                  w'.store == w.store[n := Sandbox(Error, None, "", w.store[source].resources)])
            && (outcome == Ok ==>
                  && w'.store == w.store[n := Sandbox(Running, Some(w.nextId), "", w.store[source].resources)]
                  && w'.containers == w.containers[w.nextId := Container(n, Up)] && w'.gauge == w.gauge + 1)
  {
    if source in w.store && n !in w.store {
      var draft := Sandbox(Creating, None, "", w.store[source].resources);
      if f.create && f.start {
        var sb := ProvisionOk(w, n, draft, false, f.(setup := []));
      } else {
        assert w.store[n := draft][n := draft.(state := Error)] == w.store[n := draft.(state := Error)];
      }
    }
  }

  /** The record that Reconcile makes for a container. */
  function Imported(id: Id, st: ContainerState): Sandbox {
    var state := if st == Up then Running else if st == Exited then Stopped else if st == Fresh then Pending else Error;
    Sandbox(state, Some(id), "", Resources(Unset, Unset, Unset, 0))
  }

  /** The first listed container that bears this name. */
  function FirstListed(w: World, listed: seq<Id>, n: Name): (id: Option<Id>)
    ensures id.Some? ==> id.value in listed && id.value in w.containers && w.containers[id.value].owner == n
    ensures id.None? ==> forall x :: x in listed && x in w.containers ==> w.containers[x].owner != n
    decreases |listed|
  {
    if listed == [] then None
    else if listed[0] in w.containers && w.containers[listed[0]].owner == n then Some(listed[0])
    else FirstListed(w, listed[1..], n)
  }

  lemma ImportAddsOne(w: World, id: Id)
    ensures var w' := Import(w, id);
            && w'.containers == w.containers && w'.gauge == w.gauge
            && w'.store ==
               if id in w.containers && w.containers[id].owner != "" && w.containers[id].owner !in w.store
               then w.store[w.containers[id].owner := Imported(id, w.containers[id].state)] else w.store
  {
  }

  /** Reconcile in closed form, name by name: a record that was there stays; otherwise the first listed container of that
      name is recorded with its state; and nothing else. */
  lemma {:induction false} ReconcileRecords(w: World, listed: seq<Id>, n: Name)
    ensures var w' := Reconcile(w, listed);
            var first := FirstListed(w, listed, n);
            && w'.containers == w.containers && w'.gauge == w.gauge
            && (n in w'.store <==> n in w.store || (n != "" && first.Some?))
            && (n in w'.store ==>
                  w'.store[n] == if n in w.store then w.store[n] else Imported(first.value, w.containers[first.value].state))
    decreases |listed|
  {
    if listed != [] {
      var w1 := Import(w, listed[0]);
      ImportAddsOne(w, listed[0]);
      ReconcileRecords(w1, listed[1..], n);
      SameListing(w, w1, listed[1..], n);
      hide Imported;
    }
  }

  lemma {:induction false} SameListing(w: World, w1: World, listed: seq<Id>, n: Name)
    requires w1.containers == w.containers
    ensures FirstListed(w1, listed, n) == FirstListed(w, listed, n)
    decreases |listed|
  {
    if listed != [] {
      SameListing(w, w1, listed[1..], n);
    }
  }
}
