/** The controller as the code has it: an object whose methods change the stores, the runtime and the
    gauge step by step. Each method is proved to do what its function in `Lifecycle` or `Matrices` says, and to keep
    records, containers and gauge in agreement. */
module ControllerObject {
  import opened Wrappers
  import opened Records
  import Q = Quota
  import L = Lifecycle
  import M = Matrices
  import P = LifecycleProofs
  import R = MatrixRuns

  class Controller {
    const env: L.Env
    var store: map<Name, Sandbox>
    var matrices: map<Name, Matrix>
    var sessions: map<string, Session>
    var containers: map<Id, L.Container>
    var networks: set<string>
    var nextId: Id
    var gauge: int
    ghost var imported: nat

    ghost function View(): L.World
      reads this
    {
      L.World(env, store, matrices, sessions, containers, networks, nextId, gauge, imported)
    }

    /** Records and containers agree, and the gauge counts what is active. */
    ghost predicate Valid()
      reads this
    {
      P.Sound(View())
    }

    /** A controller that starts over the containers an earlier process may have left. */
    constructor (
      env: L.Env, sessions: map<string, Session>, containers: map<Id, L.Container>, networks: set<string>, nextId: Id)
      ensures View() == L.World(env, map[], map[], sessions, containers, networks, nextId, 0, 0)
      ensures (forall id :: id in containers ==> id < nextId) ==> Valid()
    {
      this.env, this.containers, this.networks, this.nextId := env, containers, networks, nextId;
      store, matrices, gauge, imported := map[], map[], 0, 0;
      this.sessions := sessions;
      new;
      assert P.ActiveNames(store) == {};
    }

    // ---- Runtime calls ----

    method RuntimeCreate(n: Name) returns (id: Id)
      modifies this
      ensures id == old(nextId) && View() == L.Launch(old(View()), n)
    {
      id := nextId;
      containers := containers[id := L.Container(n, L.Fresh)];
      nextId := nextId + 1;
    }

    method RuntimeSetState(id: Id, st: L.ContainerState)
      modifies this
      ensures View() == L.SetState(old(View()), id, st)
    {
      if id in containers {
        containers := containers[id := containers[id].(state := st)];
      }
    }

    method RuntimeDestroy(id: Id, ok: bool)
      modifies this
      ensures View() == L.Remove(old(View()), id, ok)
    {
      if ok {
        containers := containers - {id};
      }
    }

    // ---- Sandboxes ----

    method CheckQuota(team: string, req: Q.Request) returns (refusal: Option<Q.Refusal>)
      ensures refusal == Q.CheckQuota(env.quotas, store, matrices, sessions, team, req)
    {
      if team !in env.quotas {
        return Some(Q.UnknownTeam);
      }
      var usage := Q.GetUsage(store, team);
      var count := Q.CountMatrices(matrices, team);
      var active := Q.CountSessions(sessions, store, team);
      assert usage == Q.Usage(usage.Of(Q.Sandboxes), usage.Of(Q.Cpu), usage.Of(Q.Memory), usage.Of(Q.Disk), usage.Of(Q.Gpus));
      hide Q.Total;
      refusal := Q.CheckLimits(env.quotas[team], usage, count, active, req);
    }

    method Admit(req: L.CreateRequest) returns (outcome: L.Outcome)
      ensures outcome == L.Admission(View(), req)
    {
      if req.name in store {
        return L.AlreadyExists;
      }
      if req.blueprint !in env.blueprints {
        return L.InvalidBlueprint;
      }
      if env.enforced && req.team != "" {
        var refusal := CheckQuota(req.team, L.RequestFor(env.blueprints[req.blueprint]));
        if refusal.Some? {
          return L.Refused(refusal.value);
        }
      }
      outcome := if req.workspaceAllowed then L.Ok else L.BadWorkspace;
    }

    method Create(req: L.CreateRequest, f: L.CreateFaults) returns (outcome: L.Outcome)
      modifies this
      ensures (View(), outcome) == L.Create(old(View()), req, f)
      ensures old(Valid()) ==> Valid()
    {
      hide P.Sound;
      P.SectionSound(View(), P.DoCreate(req, f));
      outcome := Admit(req);
      if outcome == L.Ok {
        var info := env.blueprints[req.blueprint];
        outcome := Provision(req.name, Sandbox(Creating, None, req.team, info.resources), info.hasProbe, f);
      }
    }

    /** The setup steps run in order until one fails. */
    method RunSetup(setup: seq<bool>) returns (passed: bool)
      ensures passed == L.AllPass(setup)
    {
      var i := 0;
      while i < |setup|
        invariant 0 <= i <= |setup|
        invariant forall j :: 0 <= j < i ==> setup[j]
      {
        if !setup[i] {
          return false;
        }
        i := i + 1;
      }
      passed := true;
    }

    method GiveUp(n: Name, sb: Sandbox, id: Id, destroyOk: bool)
      modifies this
      ensures View() == L.GiveUp(old(View()), n, sb, id, destroyOk)
    {
      RuntimeDestroy(id, destroyOk);
      store := store[n := sb.(state := Error)];
    }

    method Provision(n: Name, draft: Sandbox, hasProbe: bool, f: L.CreateFaults) returns (outcome: L.Outcome)
      modifies this
      ensures (View(), outcome) == L.Provision(old(View()), n, draft, hasProbe, f)
    {
      ghost var before := store;
      store := store[n := draft];
      if !f.create {
        store := store[n := draft.(state := Error)];
        assert store == before[n := draft.(state := Error)];
        return L.CreateFailed;
      }
      var id := RuntimeCreate(n);
      if !f.start {
        GiveUp(n, draft, id, f.destroy);
        return L.StartFailed;
      }
      RuntimeSetState(id, L.Up);
      hide L.Finish;
      outcome := Finish(n, draft.(state := Running, runtimeId := Some(id)), id, hasProbe, f);
    }

    /** Setup and probe of a container that runs, and the final save. */
    method Finish(n: Name, sb: Sandbox, id: Id, hasProbe: bool, f: L.CreateFaults) returns (outcome: L.Outcome)
      modifies this
      ensures (View(), outcome) == L.Finish(old(View()), n, sb, id, hasProbe, f)
    {
      var passed := RunSetup(f.setup);
      if !passed {
        GiveUp(n, sb, id, f.destroy);
        return L.SetupFailed;
      }
      var done := sb;
      if hasProbe {
        ghost var saved := store;
        store := store[n := sb];
        if !f.probe {
          GiveUp(n, sb, id, f.destroy);
          assert saved[n := sb][n := sb.(state := Error)] == saved[n := sb.(state := Error)];
          return L.ProbeFailed;
        }
        done := sb.(state := Ready);
        assert store[n := done] == saved[n := done];
      }
      store := store[n := done];
      gauge := gauge + 1;
      outcome := L.Ok;
    }

    method Stop(n: Name, ok: bool) returns (outcome: L.Outcome)
      modifies this
      ensures (View(), outcome) == L.Stop(old(View()), n, ok)
      ensures old(Valid()) ==> Valid()
    {
      hide P.Sound;
      P.SectionSound(View(), P.DoStop(n, ok));
      if n !in store {
        return L.NotFound;
      }
      var sb := store[n];
      if sb.state != Running && sb.state != Ready {
        return L.WrongState;
      }
      if !ok || sb.runtimeId.None? {
        return L.StopFailed;
      }
      RuntimeSetState(sb.runtimeId.value, L.Exited);
      store := store[n := sb.(state := Stopped)];
      gauge := gauge - 1;
      outcome := L.Ok;
    }

    method Start(n: Name, ok: bool) returns (outcome: L.Outcome)
      modifies this
      ensures (View(), outcome) == L.Start(old(View()), n, ok)
      ensures old(Valid()) ==> Valid()
    {
      hide P.Sound;
      P.SectionSound(View(), P.DoStart(n, ok));
      if n !in store {
        return L.NotFound;
      }
      var sb := store[n];
      if sb.state != Stopped {
        return L.WrongState;
      }
      if !ok || sb.runtimeId.None? {
        return L.StartFailed;
      }
      RuntimeSetState(sb.runtimeId.value, L.Up);
      store := store[n := sb.(state := Running)];
      gauge := gauge + 1;
      outcome := L.Ok;
    }

    method Destroy(n: Name, ok: bool) returns (outcome: L.Outcome)
      modifies this
      ensures (View(), outcome) == L.Destroy(old(View()), n, ok)
      ensures old(Valid()) ==> Valid()
    {
      hide P.Sound;
      P.SectionSound(View(), P.DoDestroy(n, ok));
      if n !in store {
        return L.NotFound;
      }
      var sb := store[n];
      var wasActive := sb.state == Running || sb.state == Ready;
      if sb.runtimeId.Some? {
        if !ok {
          return L.DestroyFailed;
        }
        RuntimeDestroy(sb.runtimeId.value, true);
      }
      if wasActive {
        gauge := gauge - 1;
      }
      store := store - {n};
      outcome := L.Ok;
    }

    method Restore(source: Name, n: Name, f: L.CreateFaults) returns (outcome: L.Outcome)
      modifies this
      ensures (View(), outcome) == L.Restore(old(View()), source, n, f)
      ensures old(Valid()) ==> Valid()
    {
      hide P.Sound;
      P.SectionSound(View(), P.DoRestore(source, n, f));
      if source !in store {
        return L.NotFound;
      }
      if n in store {
        return L.AlreadyExists;
      }
      outcome := Provision(n, Sandbox(Creating, None, "", store[source].resources), false, f.(setup := []));
    }

    /** `listing` is None when the runtime could not list its containers. */
    method Reconcile(listing: Option<seq<Id>>) returns (ok: bool)
      modifies this
      ensures ok == listing.Some?
      ensures View() == if ok then L.Reconcile(old(View()), listing.value) else old(View())
      ensures old(Valid()) ==> Valid()
    {
      if listing.None? {
        return false;
      }
      var listed := listing.value;
      P.ReconcileSound(View(), listed);
      hide P.Sound;
      var i := 0;
      while i < |listed|
        invariant 0 <= i <= |listed|
        invariant L.Reconcile(View(), listed[i..]) == L.Reconcile(old(View()), listed)
      {
        assert listed[i..][1..] == listed[i + 1..];
        var id := listed[i];
        if id in containers && containers[id].owner != "" && containers[id].owner !in store {
          var c := containers[id];
          store := store[c.owner := Sandbox(L.MapContainerState(c.state), Some(id), "", L.UNKNOWN_RESOURCES)];
          if c.state == L.Up {
            imported := imported + 1;
          }
        }
        i := i + 1;
      }
      ok := true;
    }

    // ---- Matrices ----

    method CreateMatrix(matrix: Name, members: seq<Member>, team: string, f: M.MatrixFaults)
      returns (outcome: M.MatrixOutcome)
      modifies this
      ensures (View(), outcome) == M.CreateMatrix(old(View()), matrix, members, team, f)
      ensures old(Valid()) ==> Valid()
    {
      hide P.Sound, M.CreateMembers, M.CleanUp, Q.CheckQuota;
      R.CallSound(View(), R.OnCreate(matrix, members, team, f));
      if matrix in matrices {
        return M.Exists;
      }
      if env.enforced && team != "" {
        var refusal := CheckQuota(team, M.MatrixRequest(members));
        if refusal.Some? {
          return M.QuotaRefused(refusal.value);
        }
      }
      var net := M.NetworkName(matrix);
      if !f.addNetwork || net in networks {
        return M.NetworkFailed;
      }
      networks := networks + {net};
      outcome := CreateMembers(matrix, members, team, f);
      if outcome.MemberFailed? {
        CleanUp(matrix, members, outcome, f);
      } else {
        matrices := matrices[matrix := Matrix(members, team, Active)];
      }
    }

    /** What follows when a member could not be created. */
    method CleanUp(matrix: Name, members: seq<Member>, outcome: M.MatrixOutcome, f: M.MatrixFaults)
      requires outcome.MemberFailed? && outcome.index < |members|
      modifies this
      ensures View() == M.CleanUp(old(View()), matrix, members, outcome, f)
    {
      hide M.Rollback;
      Rollback(matrix, members, M.SandboxName(matrix, members[outcome.index]), f);
      if f.dropNetwork {
        networks := networks - {M.NetworkName(matrix)};
      }
    }

    method CreateMembers(matrix: Name, members: seq<Member>, team: string, f: M.MatrixFaults)
      returns (outcome: M.MatrixOutcome)
      modifies this
      ensures (View(), outcome) == M.CreateMembers(old(View()), matrix, members, team, f, 0)
      ensures outcome == M.Done || (outcome.MemberFailed? && outcome.index < |members|)
    {
      var i := 0;
      while i < |members|
        invariant 0 <= i <= |members|
        invariant M.CreateMembers(View(), matrix, members, team, f, i) ==
                  M.CreateMembers(old(View()), matrix, members, team, f, 0)
      {
        hide L.Create;
        var created := Create(M.MemberRequest(matrix, members[i], team), f.creates(i));
        if created != L.Ok {
          return M.MemberFailed(i, created);
        }
        i := i + 1;
      }
      outcome := M.Done;
    }

    method Rollback(matrix: Name, members: seq<Member>, failed: Name, f: M.MatrixFaults)
      modifies this
      ensures View() == M.Rollback(old(View()), matrix, members, failed, f, 0)
    {
      var i := 0;
      while i < |members|
        invariant 0 <= i <= |members|
        invariant M.Rollback(View(), matrix, members, failed, f, i) ==
                  M.Rollback(old(View()), matrix, members, failed, f, 0)
      {
        hide L.Destroy;
        if M.SandboxName(matrix, members[i]) == failed {
          return;
        }
        var _ := Destroy(M.SandboxName(matrix, members[i]), f.destroys(i));
        i := i + 1;
      }
    }

    /** The first failure wins, whatever comes after it. */
    static function Earlier(first: M.MatrixOutcome, later: M.MatrixOutcome): M.MatrixOutcome {
      if first != M.Done then first else later
    }

    method StopMatrix(matrix: Name, oks: nat -> bool) returns (outcome: M.MatrixOutcome)
      modifies this
      ensures (View(), outcome) == M.StopMatrix(old(View()), matrix, oks)
      ensures old(Valid()) ==> Valid()
    {
      hide P.Sound;
      R.CallSound(View(), R.OnStop(matrix, oks));
      if matrix !in matrices {
        return M.Missing;
      }
      var mx := matrices[matrix];
      if mx.state != Active {
        return M.NotInState;
      }
      ghost var start := View();
      outcome := M.Done;
      var i := 0;
      while i < |mx.members|
        invariant 0 <= i <= |mx.members|
        invariant var (w, rest) := M.StopMembers(View(), matrix, mx.members, oks, i);
                  (w, Earlier(outcome, rest)) == M.StopMembers(start, matrix, mx.members, oks, 0)
      {
        hide L.Stop;
        var stopped := Stop(M.SandboxName(matrix, mx.members[i]), oks(i));
        if stopped != L.Ok && outcome == M.Done {
          outcome := M.MemberFailed(i, stopped);
        }
        i := i + 1;
      }
      if outcome == M.Done {
        matrices := matrices[matrix := mx.(state := Halted)];
      }
    }

    method StartMatrix(matrix: Name, oks: nat -> bool) returns (outcome: M.MatrixOutcome)
      modifies this
      ensures (View(), outcome) == M.StartMatrix(old(View()), matrix, oks)
      ensures old(Valid()) ==> Valid()
    {
      hide P.Sound;
      R.CallSound(View(), R.OnStart(matrix, oks));
      if matrix !in matrices {
        return M.Missing;
      }
      var mx := matrices[matrix];
      if mx.state != Halted {
        return M.NotInState;
      }
      ghost var start := View();
      outcome := M.Done;
      var i := 0;
      while i < |mx.members|
        invariant 0 <= i <= |mx.members|
        invariant var (w, rest) := M.StartMembers(View(), matrix, mx.members, oks, i);
                  (w, Earlier(outcome, rest)) == M.StartMembers(start, matrix, mx.members, oks, 0)
      {
        hide L.Start;
        var started := Start(M.SandboxName(matrix, mx.members[i]), oks(i));
        if started != L.Ok && outcome == M.Done {
          outcome := M.MemberFailed(i, started);
        }
        i := i + 1;
      }
      if outcome == M.Done {
        matrices := matrices[matrix := mx.(state := Active)];
      }
    }

    method DestroyMatrix(matrix: Name, oks: nat -> bool, dropNetwork: bool) returns (outcome: M.MatrixOutcome)
      modifies this
      ensures (View(), outcome) == M.DestroyMatrix(old(View()), matrix, oks, dropNetwork)
      ensures old(Valid()) ==> Valid()
    {
      hide P.Sound;
      R.CallSound(View(), R.OnDestroy(matrix, oks, dropNetwork));
      if matrix !in matrices {
        return M.Missing;
      }
      var members := matrices[matrix].members;
      ghost var start := View();
      outcome := M.Done;
      var i := 0;
      while i < |members|
        invariant 0 <= i <= |members|
        invariant var (w, rest) := M.DestroyMembers(View(), matrix, members, oks, i);
                  (w, Earlier(outcome, rest)) == M.DestroyMembers(start, matrix, members, oks, 0)
      {
        hide L.Destroy;
        var destroyed := Destroy(M.SandboxName(matrix, members[i]), oks(i));
        if destroyed != L.Ok && outcome == M.Done {
          outcome := M.MemberFailed(i, destroyed);
        }
        i := i + 1;
      }
      if dropNetwork {
        networks := networks - {M.NetworkName(matrix)};
      }
      matrices := matrices - {matrix};
    }
  }
}
