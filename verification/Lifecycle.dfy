/** The sandbox lifecycle: what each critical section of the controller does to the record
    store, to the containers of the runtime and to the active gauge.

    Runtime calls may fail at any point; the `*Faults` records say which ones succeed. A call that
    fails has no effect on the containers. The stores do not fail. */
module Lifecycle {
  import opened Wrappers
  import opened Records
  import opened Quota

  /** Container states as the runtime lists them: "created", "running", "exited", anything else. */
  datatype ContainerState = Fresh | Up | Exited | Other

  /** `owner` is the sandbox name in the container's labels, empty for foreign containers. */
  datatype Container = Container(owner: Name, state: ContainerState)

  /** What the controller takes from a parsed and validated blueprint file. */
  datatype BlueprintInfo = BlueprintInfo(resources: Resources, hasProbe: bool)

  /** Team quotas and blueprint files, which do not change; a path that is not a key does not validate. `enforced` is
      whether the controller has a quota checker. */
  datatype Env = Env(enforced: bool, quotas: map<string, Quota>, blueprints: map<string, BlueprintInfo>)

  /** Requests of this team are checked. */
  predicate Governed(env: Env, team: string) {
    env.enforced && team != ""
  }

  datatype World = World(
    env: Env,
    store: map<Name, Sandbox>,
    matrices: map<Name, Matrix>,
    sessions: map<string, Session>,
    containers: map<Id, Container>,
    networks: set<string>,
    nextId: Id,
    gauge: int,
    imported: nat)   // Running records the reconciler has added

  datatype CreateRequest = CreateRequest(name: Name, blueprint: string, team: string, workspaceAllowed: bool)

  /** Which runtime calls of one Create or Restore succeed. `setup` holds one answer per setup step
      that is run: none when the image was cached. */
  datatype CreateFaults = CreateFaults(create: bool, start: bool, setup: seq<bool>, probe: bool, destroy: bool)

  datatype Outcome =
    | Ok | NotFound | AlreadyExists | InvalidBlueprint | Refused(refusal: Refusal) | BadWorkspace
    | CreateFailed | StartFailed | SetupFailed | ProbeFailed | WrongState | StopFailed | DestroyFailed

  function Save(w: World, n: Name, sb: Sandbox): World {
    w.(store := w.store[n := sb])
  }

  /** runtime.Create (or runtime.Restore): a new container, not started. */
  function Launch(w: World, n: Name): World {
    w.(containers := w.containers[w.nextId := Container(n, Fresh)], nextId := w.nextId + 1)
  }

  function SetState(w: World, id: Id, st: ContainerState): World {
    if id in w.containers then w.(containers := w.containers[id := w.containers[id].(state := st)]) else w
  }

  /** runtime.Destroy. */
  function Remove(w: World, id: Id, ok: bool): World {
    if ok then w.(containers := w.containers - {id}) else w
  }

  predicate AllPass(setup: seq<bool>) {
    forall i :: 0 <= i < |setup| ==> setup[i]
  }

  function RequestFor(info: BlueprintInfo): Request {
    Request(1, info.resources.cpu, info.resources.memory, info.resources.disk, info.resources.gpus, 0, 0)
  }

  /** What is left after a failed step of a creation: the container is (best effort) destroyed
      and an Error record stays. */
  function GiveUp(w: World, n: Name, sb: Sandbox, id: Id, destroyOk: bool): World {
    Save(Remove(w, id, destroyOk), n, sb.(state := Error))
  }

  /** Create up to the first save: the reasons to refuse. */
  ghost function Admission(w: World, req: CreateRequest): Outcome {
    if req.name in w.store then AlreadyExists
    else if req.blueprint !in w.env.blueprints then InvalidBlueprint
    else
      var refusal := if !Governed(w.env, req.team) then None
                     else CheckQuota(w.env.quotas, w.store, w.matrices, w.sessions, req.team, RequestFor(w.env.blueprints[req.blueprint]));
      if refusal.Some? then Refused(refusal.value)
      else if !req.workspaceAllowed then BadWorkspace
      else Ok
  }

  /** The record Create saves first. */
  function Draft(w: World, req: CreateRequest): Sandbox
    requires req.blueprint in w.env.blueprints
  {
    Sandbox(Creating, None, req.team, w.env.blueprints[req.blueprint].resources)
  }

  ghost function Create(w: World, req: CreateRequest, f: CreateFaults): (World, Outcome) {
    var admission := Admission(w, req);
    if admission != Ok then (w, admission)
    else Provision(w, req.name, Draft(w, req), w.env.blueprints[req.blueprint].hasProbe, f)
  }

  /** Create after admission; Restore is the same path without setup and probe. */
  function Provision(w: World, n: Name, draft: Sandbox, hasProbe: bool, f: CreateFaults): (World, Outcome) {
    if !f.create then (Save(w, n, draft.(state := Error)), CreateFailed)
    else
      var id := w.nextId;
      var w1 := Launch(Save(w, n, draft), n);
      if !f.start then (GiveUp(w1, n, draft, id, f.destroy), StartFailed)
      else
        var w2 := SetState(w1, id, Up);
        var sb := draft.(state := Running, runtimeId := Some(id));
        Finish(w2, n, sb, id, hasProbe, f)
  }

  /** Setup and probe of a container that runs, and the final save. */
  function Finish(w: World, n: Name, sb: Sandbox, id: Id, hasProbe: bool, f: CreateFaults): (World, Outcome) {
    if !AllPass(f.setup) then (GiveUp(w, n, sb, id, f.destroy), SetupFailed)
    else if hasProbe && !f.probe then (GiveUp(w, n, sb, id, f.destroy), ProbeFailed)
    else
      var done := if hasProbe then sb.(state := Ready) else sb;
      (Save(w, n, done).(gauge := w.gauge + 1), Ok)
  }

  function Stop(w: World, n: Name, ok: bool): (World, Outcome) {
    if n !in w.store then (w, NotFound)
    else
      var sb := w.store[n];
      if !IsActive(sb) then (w, WrongState)
      else if !ok || sb.runtimeId.None? then (w, StopFailed)
      else (Save(SetState(w, sb.runtimeId.value, Exited), n, sb.(state := Stopped)).(gauge := w.gauge - 1), Ok)
  }

  function Start(w: World, n: Name, ok: bool): (World, Outcome) {
    if n !in w.store then (w, NotFound)
    else
      var sb := w.store[n];
      if sb.state != Stopped then (w, WrongState)
      else if !ok || sb.runtimeId.None? then (w, StartFailed)
      else (Save(SetState(w, sb.runtimeId.value, Up), n, sb.(state := Running)).(gauge := w.gauge + 1), Ok)
  }

  function Destroy(w: World, n: Name, ok: bool): (World, Outcome) {
    if n !in w.store then (w, NotFound)
    else
      var sb := w.store[n];
      if sb.runtimeId.Some? && !ok then (w, DestroyFailed)
      else
        var w1 := if sb.runtimeId.Some? then Remove(w, sb.runtimeId.value, true) else w;
        (w1.(store := w.store - {n}, gauge := if IsActive(sb) then w.gauge - 1 else w.gauge), Ok)
  }

  /** Restore carries over the resources of the source but not its team, and checks no quota. */
  function Restore(w: World, source: Name, n: Name, f: CreateFaults): (World, Outcome) {
    if source !in w.store then (w, NotFound)
    else if n in w.store then (w, AlreadyExists)
    else Provision(w, n, Sandbox(Creating, None, "", w.store[source].resources), false, f.(setup := []))
  }

  function MapContainerState(st: ContainerState): SandboxState {
    match st
    case Up => Running
    case Exited => Stopped
    case Fresh => Pending
    case Other => Error
  }

  const UNKNOWN_RESOURCES := Resources(Unset, Unset, Unset, 0)

  /** The body of reconcile's loop for one listed container. */
  function Import(w: World, id: Id): World {
    if id !in w.containers then w
    else
      var c := w.containers[id];
      if c.owner == "" || c.owner in w.store then w
      else
        Save(w, c.owner, Sandbox(MapContainerState(c.state), Some(id), "", UNKNOWN_RESOURCES))
        .(imported := if c.state == Up then w.imported + 1 else w.imported)
  }

  /** reconcile over the containers the runtime lists, in that order. */
  function Reconcile(w: World, listed: seq<Id>): World
    decreases |listed|
  {
    if listed == [] then w else Reconcile(Import(w, listed[0]), listed[1..])
  }
}
