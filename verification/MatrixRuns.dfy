/** Matrix operations as runs of critical sections: they inherit the controller's invariants, and the
    quota checks of CreateMatrix hold over serial runs. */
module MatrixRuns {
  import opened Wrappers
  import opened Records
  import opened Quota
  import opened Lifecycle
  import opened LifecycleProofs
  import opened QuotaProofs
  import opened Matrices
  import opened MatrixCreate

  /** One public call of the controller. */
  datatype Call =
    | OnSandbox(section: Section)
    | OnCreate(matrix: Name, members: seq<Member>, team: string, faults: MatrixFaults)
    | OnStop(matrix: Name, oks: nat -> bool)
    | OnStart(matrix: Name, oks: nat -> bool)
    | OnDestroy(matrix: Name, oks: nat -> bool, dropNetwork: bool)

  /** Matrix records and networks are only touched by matrix calls. */
  predicate IsSandboxSection(s: Section) {
    !s.SaveMatrix? && !s.DropMatrix? && !s.AddNetwork? && !s.DropNetwork?
  }

  ghost function ApplyCall(w: World, c: Call): World {
    match c
    case OnSandbox(s) => Apply(w, s)
    case OnCreate(matrix, members, team, f) => CreateMatrix(w, matrix, members, team, f).0
    case OnStop(matrix, oks) => StopMatrix(w, matrix, oks).0
    case OnStart(matrix, oks) => StartMatrix(w, matrix, oks).0
    case OnDestroy(matrix, oks, drop) => DestroyMatrix(w, matrix, oks, drop).0
  }

  /** A serial run: each call ends before the next begins. */
  ghost function Serial(w: World, calls: seq<Call>): World
    decreases |calls|
  {
    if calls == [] then w else Serial(ApplyCall(w, calls[0]), calls[1..])
  }

  lemma {:induction false} RunAppend(w: World, a: seq<Section>, b: seq<Section>)
    ensures Run(w, a + b) == Run(Run(w, a), b)
    decreases |a|
  {
    hide Apply;
    if a == [] {
      assert a + b == b;
    } else {
      assert (a + b)[1..] == a[1..] + b;
      RunAppend(Apply(w, a[0]), a[1..], b);
    }
  }

  lemma RunOne(w: World, s: Section)
    ensures Run(w, [s]) == Apply(w, s)
  {
    hide Apply;
    assert [s][1..] == [];
  }

  /** Runs `s` before the run `rest`. */
  lemma RunThen(w: World, s: Section, rest: seq<Section>)
    ensures Run(w, [s] + rest) == Run(Apply(w, s), rest)
  {
    hide Apply;
    RunAppend(w, [s], rest);
    RunOne(w, s);
  }

  lemma {:induction false} CreateMembersRun(
    w: World, matrix: Name, members: seq<Member>, team: string, f: MatrixFaults, i: nat) returns (run: seq<Section>)
    requires i <= |members|
    ensures CreateMembers(w, matrix, members, team, f, i).0 == Run(w, run)
    decreases |members| - i
  {
    hide Create;
    run := [];
    if i < |members| {
      var req := MemberRequest(matrix, members[i], team);
      var s := DoCreate(req, f.creates(i));
      if Create(w, req, f.creates(i)).1 == Ok {
        run := CreateMembersRun(Create(w, req, f.creates(i)).0, matrix, members, team, f, i + 1);
      }
      RunThen(w, s, run);
      run := [s] + run;
    }
  }

  lemma {:induction false} RollbackRun(
    w: World, matrix: Name, members: seq<Member>, failed: Name, f: MatrixFaults, i: nat) returns (run: seq<Section>)
    requires i <= |members|
    ensures Rollback(w, matrix, members, failed, f, i) == Run(w, run)
    decreases |members| - i
  {
    hide Destroy;
    run := [];
    if i < |members| && SandboxName(matrix, members[i]) != failed {
      var s := DoDestroy(SandboxName(matrix, members[i]), f.destroys(i));
      run := RollbackRun(Destroy(w, s.name, s.ok).0, matrix, members, failed, f, i + 1);
      RunThen(w, s, run);
      run := [s] + run;
    }
  }

  /** The rollback while other calls go on: the lock is free between its destroys, and before the one of member k others
      get their sections `others(k)` through. */
  ghost function RollbackAmong(
    w: World, matrix: Name, members: seq<Member>, failed: Name, f: MatrixFaults, others: nat -> seq<Section>, i: nat): World
    requires i <= |members|
    decreases |members| - i
  {
    if i == |members| || SandboxName(matrix, members[i]) == failed then w
    else
      var w1 := Destroy(Run(w, others(i)), SandboxName(matrix, members[i]), f.destroys(i)).0;
      RollbackAmong(w1, matrix, members, failed, f, others, i + 1)
  }

  /** The sections of others, and one destroy for each member before the first that bears the failed name. */
  function Woven(
    matrix: Name, members: seq<Member>, failed: Name, f: MatrixFaults, others: nat -> seq<Section>, i: nat): seq<Section>
    requires i <= |members|
    decreases |members| - i
  {
    if i == |members| || SandboxName(matrix, members[i]) == failed then []
    else
      others(i) + [DoDestroy(SandboxName(matrix, members[i]), f.destroys(i))]
      + Woven(matrix, members, failed, f, others, i + 1)
  }

  /** Over every interleaving the rollback destroys, once each and in order, what bears the names of the members before
      the first namesake of the failed one, and nothing else. It goes by name: it also destroys a sandbox that somebody
      else has created under such a name meanwhile. */
  lemma {:induction false} RollbackDestroysByName(
    w: World, matrix: Name, members: seq<Member>, failed: Name, f: MatrixFaults, others: nat -> seq<Section>, i: nat)
    requires i <= |members|
    ensures RollbackAmong(w, matrix, members, failed, f, others, i) == Run(w, Woven(matrix, members, failed, f, others, i))
    decreases |members| - i
  {
    hide Destroy;
    if i < |members| && SandboxName(matrix, members[i]) != failed {
      var destroy := DoDestroy(SandboxName(matrix, members[i]), f.destroys(i));
      var rest := Woven(matrix, members, failed, f, others, i + 1);
      var w1 := Apply(Run(w, others(i)), destroy);
      RollbackDestroysByName(w1, matrix, members, failed, f, others, i + 1);
      hide Run, Apply;
      RunThenOne(w, others(i), destroy);
      RunAppend(w, others(i) + [destroy], rest);
    }
  }

  /** Alone, that is the rollback of the serial model. */
  lemma {:induction false} RollbackAlone(
    w: World, matrix: Name, members: seq<Member>, failed: Name, f: MatrixFaults, others: nat -> seq<Section>, i: nat)
    requires i <= |members| && forall k: nat :: others(k) == []
    ensures RollbackAmong(w, matrix, members, failed, f, others, i) == Rollback(w, matrix, members, failed, f, i)
    decreases |members| - i
  {
    hide Destroy;
    if i < |members| && SandboxName(matrix, members[i]) != failed {
      assert Run(w, others(i)) == w;
      RollbackAlone(Destroy(w, SandboxName(matrix, members[i]), f.destroys(i)).0, matrix, members, failed, f, others, i + 1);
    }
  }

  lemma {:induction false} StopMembersRun(w: World, matrix: Name, members: seq<Member>, oks: nat -> bool, i: nat)
    returns (run: seq<Section>)
    requires i <= |members|
    ensures StopMembers(w, matrix, members, oks, i).0 == Run(w, run)
    decreases |members| - i
  {
    hide Stop;
    run := [];
    if i < |members| {
      var s := DoStop(SandboxName(matrix, members[i]), oks(i));
      run := StopMembersRun(Stop(w, s.name, s.ok).0, matrix, members, oks, i + 1);
      RunThen(w, s, run);
      run := [s] + run;
    }
  }

  lemma {:induction false} StartMembersRun(w: World, matrix: Name, members: seq<Member>, oks: nat -> bool, i: nat)
    returns (run: seq<Section>)
    requires i <= |members|
    ensures StartMembers(w, matrix, members, oks, i).0 == Run(w, run)
    decreases |members| - i
  {
    hide Start;
    run := [];
    if i < |members| {
      var s := DoStart(SandboxName(matrix, members[i]), oks(i));
      run := StartMembersRun(Start(w, s.name, s.ok).0, matrix, members, oks, i + 1);
      RunThen(w, s, run);
      run := [s] + run;
    }
  }

  lemma {:induction false} DestroyMembersRun(w: World, matrix: Name, members: seq<Member>, oks: nat -> bool, i: nat)
    returns (run: seq<Section>)
    requires i <= |members|
    ensures DestroyMembers(w, matrix, members, oks, i).0 == Run(w, run)
    decreases |members| - i
  {
    hide Destroy;
    run := [];
    if i < |members| {
      var s := DoDestroy(SandboxName(matrix, members[i]), oks(i));
      run := DestroyMembersRun(Destroy(w, s.name, s.ok).0, matrix, members, oks, i + 1);
      RunThen(w, s, run);
      run := [s] + run;
    }
  }

  lemma RunThenOne(w: World, run: seq<Section>, s: Section)
    ensures Run(w, run + [s]) == Apply(Run(w, run), s)
  {
    hide Apply;
    RunAppend(w, run, [s]);
    RunOne(Run(w, run), s);
  }

  lemma CleanUpRun(w: World, matrix: Name, members: seq<Member>, outcome: MatrixOutcome, f: MatrixFaults)
    returns (run: seq<Section>)
    ensures CleanUp(w, matrix, members, outcome, f) == Run(w, run)
  {
    var failed := if outcome.MemberFailed? && outcome.index < |members|
                  then SandboxName(matrix, members[outcome.index]) else "";
    hide Rollback, Run;
    run := RollbackRun(w, matrix, members, failed, f, 0);
    if f.dropNetwork {
      RunThenOne(w, run, DropNetwork(NetworkName(matrix)));
      run := run + [DropNetwork(NetworkName(matrix))];
    }
  }

  lemma CreateMatrixRun(w: World, matrix: Name, members: seq<Member>, team: string, f: MatrixFaults)
    returns (run: seq<Section>)
    ensures CreateMatrix(w, matrix, members, team, f).0 == Run(w, run)
  {
    hide CreateMembers, CleanUp, CheckQuota;
    run := [];
    assert Run(w, run) == w;
    hide Run;
    if CreateMatrix(w, matrix, members, team, f).0 != w {
      var add := AddNetwork(NetworkName(matrix));
      var w1 := w.(networks := w.networks + {NetworkName(matrix)});
      var creates := CreateMembersRun(w1, matrix, members, team, f, 0);
      RunThen(w, add, creates);
      run := [add] + creates;
      var (w2, outcome) := CreateMembers(w1, matrix, members, team, f, 0);
      if outcome != Done {
        var undo := CleanUpRun(w2, matrix, members, outcome, f);
        RunAppend(w, run, undo);
        run := run + undo;
      } else {
        RunThenOne(w, run, SaveMatrix(matrix, Matrix(members, team, Active)));
        run := run + [SaveMatrix(matrix, Matrix(members, team, Active))];
      }
    }
  }

  lemma StopMatrixRun(w: World, matrix: Name, oks: nat -> bool) returns (run: seq<Section>)
    ensures StopMatrix(w, matrix, oks).0 == Run(w, run)
  {
    hide StopMembers;
    run := [];
    if matrix in w.matrices && w.matrices[matrix].state == Active {
      var mx := w.matrices[matrix];
      run := StopMembersRun(w, matrix, mx.members, oks, 0);
      if StopMembers(w, matrix, mx.members, oks, 0).1 == Done {
        RunThenOne(w, run, SaveMatrix(matrix, mx.(state := Halted)));
        run := run + [SaveMatrix(matrix, mx.(state := Halted))];
      }
    }
  }

  lemma StartMatrixRun(w: World, matrix: Name, oks: nat -> bool) returns (run: seq<Section>)
    ensures StartMatrix(w, matrix, oks).0 == Run(w, run)
  {
    hide StartMembers;
    run := [];
    if matrix in w.matrices && w.matrices[matrix].state == Halted {
      var mx := w.matrices[matrix];
      run := StartMembersRun(w, matrix, mx.members, oks, 0);
      if StartMembers(w, matrix, mx.members, oks, 0).1 == Done {
        RunThenOne(w, run, SaveMatrix(matrix, mx.(state := Active)));
        run := run + [SaveMatrix(matrix, mx.(state := Active))];
      }
    }
  }

  lemma DestroyMatrixRun(w: World, matrix: Name, oks: nat -> bool, dropNetwork: bool) returns (run: seq<Section>)
    ensures DestroyMatrix(w, matrix, oks, dropNetwork).0 == Run(w, run)
  {
    hide DestroyMembers;
    run := [];
    if matrix in w.matrices {
      run := DestroyMembersRun(w, matrix, w.matrices[matrix].members, oks, 0);
      if dropNetwork {
        RunThenOne(w, run, DropNetwork(NetworkName(matrix)));
        run := run + [DropNetwork(NetworkName(matrix))];
      }
      RunThenOne(w, run, DropMatrix(matrix));
      run := run + [DropMatrix(matrix)];
    }
  }

  /** Every public call is a run of critical sections. */
  lemma CallIsRun(w: World, c: Call) returns (run: seq<Section>)
    ensures ApplyCall(w, c) == Run(w, run)
  {
    match c
    case OnSandbox(s) =>
      RunOne(w, s);
      run := [s];
    case OnCreate(matrix, members, team, f) => run := CreateMatrixRun(w, matrix, members, team, f);
    case OnStop(matrix, oks) => run := StopMatrixRun(w, matrix, oks);
    case OnStart(matrix, oks) => run := StartMatrixRun(w, matrix, oks);
    case OnDestroy(matrix, oks, drop) => run := DestroyMatrixRun(w, matrix, oks, drop);
  }

  lemma CallSound(w: World, c: Call)
    ensures Sound(w) ==> Sound(ApplyCall(w, c))
  {
    hide Sound, Run, ApplyCall;
    var run := CallIsRun(w, c);
    RunSound(w, run);
  }

  lemma {:induction false} SerialIsRun(w: World, calls: seq<Call>) returns (run: seq<Section>)
    ensures Serial(w, calls) == Run(w, run)
    decreases |calls|
  {
    hide ApplyCall, Apply;
    run := [];
    if calls != [] {
      var first := CallIsRun(w, calls[0]);
      var rest := SerialIsRun(ApplyCall(w, calls[0]), calls[1..]);
      RunAppend(w, first, rest);
      run := first + rest;
    }
  }

  /** The controller's guarantees over every serial run of calls, matrix calls included. */
  lemma SerialInvariant(w: World, calls: seq<Call>, team: string)
    requires Startup(w)
    ensures Agrees(Serial(w, calls)) && GaugeBalanced(Serial(w, calls))
    ensures AmountsNonNegative(w) && LimitsFit(w) ==> WithinQuota(Serial(w, calls), team)
  {
    hide Run, Serial, Agrees, GaugeBalanced, WithinQuota, Startup;
    var run := SerialIsRun(w, calls);
    ControllerInvariant(w, run, team);
  }

  // ---- The number of matrices ----

  predicate MatricesWithinQuota(w: World, team: string) {
    Governed(w.env, team) && team in w.env.quotas && w.env.quotas[team].maxMatrices > 0 ==>
      |TeamMatrices(w.matrices, team)| <= w.env.quotas[team].maxMatrices
  }

  lemma TeamMatricesSave(matrices: map<Name, Matrix>, n: Name, mx: Matrix, team: string)
    ensures TeamMatrices(matrices[n := mx], team) ==
            if mx.team == team then TeamMatrices(matrices, team) + {n} else TeamMatrices(matrices, team) - {n}
  {
  }

  lemma TeamMatricesDrop(matrices: map<Name, Matrix>, n: Name, team: string)
    ensures TeamMatrices(matrices - {n}, team) == TeamMatrices(matrices, team) - {n}
  {
  }

  /** What CreateMatrix does to the matrix records. */
  lemma CreateMatrixRecords(w: World, matrix: Name, members: seq<Member>, team: string, f: MatrixFaults)
    ensures var (w', outcome) := CreateMatrix(w, matrix, members, team, f);
            && w'.env == w.env
            && (outcome != Done ==> w'.matrices == w.matrices)
            && (outcome == Done ==>
                  && matrix !in w.matrices && w'.matrices == w.matrices[matrix := Matrix(members, team, Active)]
                  && (Governed(w.env, team) ==> CheckQuota(w.env.quotas, w.store, w.matrices, w.sessions, team, MatrixRequest(members)).None?))
  {
    hide CreateMembers, Rollback, CheckQuota;
    var w1 := w.(networks := w.networks + {NetworkName(matrix)});
    CreateMembersKeepRest(w1, matrix, members, team, f, 0);
    var (w2, outcome) := CreateMembers(w1, matrix, members, team, f, 0);
    var failed := if outcome.MemberFailed? && outcome.index < |members|
                  then SandboxName(matrix, members[outcome.index]) else "";
    RollbackKeepsRest(w2, matrix, members, failed, f, 0);
  }

  lemma {:induction false} StopMembersKeepRest(w: World, matrix: Name, members: seq<Member>, oks: nat -> bool, i: nat)
    requires i <= |members|
    ensures SameRest(w, StopMembers(w, matrix, members, oks, i).0)
    decreases |members| - i
  {
    if i < |members| {
      StopMembersKeepRest(Stop(w, SandboxName(matrix, members[i]), oks(i)).0, matrix, members, oks, i + 1);
    }
  }

  lemma {:induction false} StartMembersKeepRest(w: World, matrix: Name, members: seq<Member>, oks: nat -> bool, i: nat)
    requires i <= |members|
    ensures SameRest(w, StartMembers(w, matrix, members, oks, i).0)
    decreases |members| - i
  {
    if i < |members| {
      StartMembersKeepRest(Start(w, SandboxName(matrix, members[i]), oks(i)).0, matrix, members, oks, i + 1);
    }
  }

  lemma {:induction false} DestroyMembersKeepRest(w: World, matrix: Name, members: seq<Member>, oks: nat -> bool, i: nat)
    requires i <= |members|
    ensures SameRest(w, DestroyMembers(w, matrix, members, oks, i).0)
    decreases |members| - i
  {
    if i < |members| {
      DestroyMembersKeepRest(Destroy(w, SandboxName(matrix, members[i]), oks(i)).0, matrix, members, oks, i + 1);
    }
  }

  lemma SandboxSectionKeepsRest(w: World, s: Section)
    requires IsSandboxSection(s)
    ensures SameRest(w, Apply(w, s))
  {
    match s
    case DoCreate(req, f) => CreateKeepsRest(w, req, f);
    case DoRestore(source, n, f) =>
      if source in w.store && n !in w.store {
        var draft := Sandbox(Creating, None, "", w.store[source].resources);
        var sb := ProvisionRecord(w, n, draft, false, f.(setup := []));
      }
    case _ =>
  }

  lemma CreateMatrixCount(w: World, matrix: Name, members: seq<Member>, owner: string, f: MatrixFaults, team: string)
    requires MatricesWithinQuota(w, team)
    ensures MatricesWithinQuota(CreateMatrix(w, matrix, members, owner, f).0, team)
  {
    hide CreateMatrix, Total;
    CreateMatrixRecords(w, matrix, members, owner, f);
    TeamMatricesSave(w.matrices, matrix, Matrix(members, owner, Active), team);
    assert matrix !in w.matrices ==> matrix !in TeamMatrices(w.matrices, team);
  }

  lemma MatrixStateKeepsCount(w: World, matrix: Name, state: MatrixState, w': World, team: string)
    requires MatricesWithinQuota(w, team) && matrix in w.matrices
    requires w'.env == w.env
    requires w'.matrices == w.matrices || w'.matrices == w.matrices[matrix := w.matrices[matrix].(state := state)]
    ensures MatricesWithinQuota(w', team)
  {
    TeamMatricesSave(w.matrices, matrix, w.matrices[matrix].(state := state), team);
    assert TeamMatrices(w'.matrices, team) == TeamMatrices(w.matrices, team);
  }

  lemma MatrixDropKeepsCount(w: World, matrix: Name, w': World, team: string)
    requires MatricesWithinQuota(w, team) && w'.env == w.env && w'.matrices == w.matrices - {matrix}
    ensures MatricesWithinQuota(w', team)
  {
    TeamMatricesDrop(w.matrices, matrix, team);
    assert |TeamMatrices(w.matrices, team) - {matrix}| <= |TeamMatrices(w.matrices, team)|;
  }

  lemma SwitchCallKeepsMatrixCount(w: World, c: Call, team: string)
    requires MatricesWithinQuota(w, team) && (c.OnStop? || c.OnStart?)
    ensures MatricesWithinQuota(ApplyCall(w, c), team)
  {
    hide MatricesWithinQuota, StopMembers, StartMembers;
    if c.matrix in w.matrices {
      if c.OnStop? {
        StopMembersKeepRest(w, c.matrix, w.matrices[c.matrix].members, c.oks, 0);
        MatrixStateKeepsCount(w, c.matrix, Halted, ApplyCall(w, c), team);
      } else {
        StartMembersKeepRest(w, c.matrix, w.matrices[c.matrix].members, c.oks, 0);
        MatrixStateKeepsCount(w, c.matrix, Active, ApplyCall(w, c), team);
      }
    }
  }

  lemma CallKeepsMatrixCount(w: World, c: Call, team: string)
    requires MatricesWithinQuota(w, team) && (c.OnSandbox? ==> IsSandboxSection(c.section))
    ensures MatricesWithinQuota(ApplyCall(w, c), team)
  {
    hide MatricesWithinQuota, Apply, CreateMatrix, DestroyMembers, StopMatrix, StartMatrix;
    match c
    case OnSandbox(s) =>
      SandboxSectionKeepsRest(w, s);
      SameRestKeepsCount(w, Apply(w, s), team);
    case OnCreate(matrix, members, owner, f) => CreateMatrixCount(w, matrix, members, owner, f, team);
    case OnDestroy(matrix, oks, drop) =>
      if matrix in w.matrices {
        DestroyMembersKeepRest(w, matrix, w.matrices[matrix].members, oks, 0);
        MatrixDropKeepsCount(w, matrix, ApplyCall(w, c), team);
      }
    case _ => SwitchCallKeepsMatrixCount(w, c, team);
  }

  lemma SameRestKeepsCount(w: World, w': World, team: string)
    requires MatricesWithinQuota(w, team) && SameRest(w, w')
    ensures MatricesWithinQuota(w', team)
  {
  }

  /** Over serial runs no team ever has more matrices than its limit. */
  lemma {:induction false} SerialMatrixCount(w: World, calls: seq<Call>, team: string)
    requires MatricesWithinQuota(w, team)
    requires forall c :: c in calls && c.OnSandbox? ==> IsSandboxSection(c.section)
    ensures MatricesWithinQuota(Serial(w, calls), team)
    decreases |calls|
  {
    hide ApplyCall, MatricesWithinQuota;
    if calls != [] {
      CallKeepsMatrixCount(w, calls[0], team);
      SerialMatrixCount(ApplyCall(w, calls[0]), calls[1..], team);
    }
  }

  // ---- The up-front check of the number of members ----

  /** There is room for `extra` more sandboxes of the team. */
  ghost predicate RoomFor(w: World, team: string, extra: int) {
    Governed(w.env, team) ==>
      && team in w.env.quotas
      && (w.env.quotas[team].maxSandboxes > 0 ==>
            Total(w.store, team, Sandboxes) + extra <= w.env.quotas[team].maxSandboxes)
  }

  lemma RoomAdmits(w: World, req: CreateRequest)
    requires RoomFor(w, req.team, 1)
    ensures Admission(w, req) != Refused(Exceeded(Sandboxes))
  {
    hide Total;
  }

  lemma CreateTakesRoom(w: World, req: CreateRequest, f: CreateFaults, extra: nat)
    requires RoomFor(w, req.team, extra + 1) && Create(w, req, f).1 == Ok
    ensures RoomFor(Create(w, req, f).0, req.team, extra)
  {
    var sb := ProvisionRecord(w, req.name, Draft(w, req), w.env.blueprints[req.blueprint].hasProbe, f);
    hide Total, Provision;
    TotalSave(w.store, req.name, sb, req.team, Sandboxes);
  }

  lemma CreateNotRefused(w: World, req: CreateRequest, f: CreateFaults)
    requires RoomFor(w, req.team, 1)
    ensures Create(w, req, f).1 != Refused(Exceeded(Sandboxes))
  {
    RoomAdmits(w, req);
    hide RoomFor, Admission;
  }

  lemma {:induction false} MembersNotRefused(
    w: World, matrix: Name, members: seq<Member>, team: string, f: MatrixFaults, i: nat)
    requires i <= |members| && RoomFor(w, team, |members| - i)
    ensures var outcome := CreateMembers(w, matrix, members, team, f, i).1;
            outcome.MemberFailed? ==> outcome.why != Refused(Exceeded(Sandboxes))
    decreases |members| - i
  {
    if i < |members| {
      var req := MemberRequest(matrix, members[i], team);
      assert RoomFor(w, team, 1);
      CreateNotRefused(w, req, f.creates(i));
      hide Create, RoomFor;
      if Create(w, req, f.creates(i)).1 == Ok {
        CreateTakesRoom(w, req, f.creates(i), |members| - i - 1);
        MembersNotRefused(Create(w, req, f.creates(i)).0, matrix, members, team, f, i + 1);
      }
    }
  }

  /** Once CreateMatrix's own check has passed, no member is refused for the number of sandboxes. */
  lemma UpFrontCheckSuffices(w: World, matrix: Name, members: seq<Member>, team: string, f: MatrixFaults)
    ensures var outcome := CreateMatrix(w, matrix, members, team, f).1;
            outcome.MemberFailed? ==> outcome.why != Refused(Exceeded(Sandboxes))
  {
    var w1 := w.(networks := w.networks + {NetworkName(matrix)});
    hide CreateMembers, Rollback, Total;
    if CreateMatrix(w, matrix, members, team, f).1.MemberFailed? && members != [] {
      assert RoomFor(w1, team, |members|);
      MembersNotRefused(w1, matrix, members, team, f, 0);
    } else {
      NoMembersDone(w1, matrix, members, team, f);
    }
  }

  lemma NoMembersDone(w: World, matrix: Name, members: seq<Member>, team: string, f: MatrixFaults)
    ensures members == [] ==> CreateMembers(w, matrix, members, team, f, 0).1 == Done
  {
  }
}
