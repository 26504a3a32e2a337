/** CreateMatrix creates everything or leaves nothing behind, provided the member names differ. */
module MatrixCreate {
  import opened Wrappers
  import opened Records
  import opened Quota
  import opened Lifecycle
  import opened LifecycleProofs
  import opened Matrices

  /** `w` is `base` plus one new active sandbox, with its own new container, for each of `names`. */
  ghost predicate GrownBy(base: World, w: World, names: set<Name>) {
    && w.env == base.env && w.matrices == base.matrices && w.sessions == base.sessions
    && w.networks == base.networks
    && w.imported == base.imported && w.gauge == base.gauge + |names|
    && RecordsGrown(base, w, names) && ContainersGrown(base, w, names)
  }

  ghost predicate RecordsGrown(base: World, w: World, names: set<Name>) {
    && (forall n :: n !in names ==> (n in w.store <==> n in base.store))
    && (forall n :: n !in names && n in base.store ==> w.store[n] == base.store[n])
    && (forall n :: n in names ==> IsNewIn(base, w, n))
  }

  ghost predicate ContainersGrown(base: World, w: World, names: set<Name>) {
    && (forall id :: id in base.containers ==> id in w.containers && w.containers[id] == base.containers[id])
    && (forall id :: id in w.containers && id !in base.containers ==>
          var n := w.containers[id].owner; n in names && n in w.store && w.store[n].runtimeId == Some(id))
  }

  predicate IsNewIn(base: World, w: World, n: Name) {
    && n !in base.store && n in w.store && IsActive(w.store[n]) && w.store[n].runtimeId.Some?
    && w.store[n].runtimeId.value in w.containers && w.store[n].runtimeId.value !in base.containers
  }

  lemma GrownByNothing(base: World, w: World)
    requires GrownBy(base, w, {})
    ensures w == base.(nextId := w.nextId)
  {
    assert w.store == base.store;
    assert w.containers == base.containers;
  }

  lemma WithGrowsRecords(base: World, w: World, names: set<Name>, n: Name, sb: Sandbox)
    requires RecordsGrown(base, w, names) && ContainersGrown(base, w, names)
    requires n !in w.store && w.nextId !in w.containers && IsActive(sb) && sb.runtimeId == Some(w.nextId)
    ensures RecordsGrown(base, With(w, n, sb), names + {n}) && n !in names
  {
    var w' := With(w, n, sb);
    assert n in names ==> IsNewIn(base, w, n);
    forall m | m in names + {n}
      ensures IsNewIn(base, w', m)
    {
      assert m != n ==> IsNewIn(base, w, m);
    }
  }

  lemma WithGrowsContainers(base: World, w: World, names: set<Name>, n: Name, sb: Sandbox)
    requires ContainersGrown(base, w, names)
    requires n !in w.store && w.nextId !in w.containers && sb.runtimeId == Some(w.nextId)
    ensures ContainersGrown(base, With(w, n, sb), names + {n})
  {
  }

  lemma WithGrows(base: World, w: World, names: set<Name>, n: Name, sb: Sandbox)
    requires GrownBy(base, w, names) && n !in w.store && w.nextId !in w.containers
    requires IsActive(sb) && sb.runtimeId == Some(w.nextId)
    ensures GrownBy(base, With(w, n, sb), names + {n}) && n !in names
  {
    hide RecordsGrown, ContainersGrown;
    WithGrowsRecords(base, w, names, n, sb);
    WithGrowsContainers(base, w, names, n, sb);
  }

  lemma NextIdIsFree(w: World)
    requires Agrees(w)
    ensures w.nextId !in w.containers
  {
  }

  lemma CreateOk(w: World, req: CreateRequest, f: CreateFaults) returns (sb: Sandbox)
    requires Create(w, req, f).1 == Ok
    ensures Create(w, req, f).0 == With(w, req.name, sb) && req.name !in w.store
    ensures IsActive(sb) && sb.runtimeId == Some(w.nextId)
  {
    hide Provision, CheckQuota;
    sb := ProvisionOk(w, req.name, Draft(w, req), w.env.blueprints[req.blueprint].hasProbe, f);
  }

  lemma CreateGrows(base: World, w: World, names: set<Name>, req: CreateRequest, f: CreateFaults)
    requires Agrees(w) && GrownBy(base, w, names) && Create(w, req, f).1 == Ok
    ensures GrownBy(base, Create(w, req, f).0, names + {req.name}) && req.name !in names
  {
    hide Agrees, GrownBy, Create, With;
    NextIdIsFree(w);
    var sb := CreateOk(w, req, f);
    WithGrows(base, w, names, req.name, sb);
  }

  /** The same world, or one with an additional Error record under `n`. */
  ghost predicate SameButError(base: World, base': World, n: Name) {
    || base' == base
    || (n !in base.store && n in base'.store && base'.store[n].state == Error
        && base' == base.(store := base.store[n := base'.store[n]]))
  }

  lemma ErrorGrowsRecords(base: World, base': World, w: World, w': World, names: set<Name>, n: Name, sb: Sandbox)
    requires RecordsGrown(base, w, names) && n !in w.store
    requires base' == base.(store := base.store[n := sb]) && w'.store == w.store[n := sb] && w'.containers == w.containers
    ensures RecordsGrown(base', w', names) && n !in base.store
  {
    assert n in names ==> IsNewIn(base, w, n);
    forall m | m in names
      ensures IsNewIn(base', w', m)
    {
      assert IsNewIn(base, w, m);
    }
  }

  lemma ErrorGrowsContainers(base: World, base': World, w: World, w': World, names: set<Name>, n: Name, sb: Sandbox)
    requires ContainersGrown(base, w, names) && n !in w.store
    requires base' == base.(store := base.store[n := sb]) && w'.store == w.store[n := sb] && w'.containers == w.containers
    ensures ContainersGrown(base', w', names)
  {
  }

  lemma ErrorGrows(base: World, w: World, names: set<Name>, n: Name, sb: Sandbox, nextId: Id) returns (base': World)
    requires GrownBy(base, w, names) && n !in w.store && sb.state == Error
    ensures SameButError(base, base', n)
    ensures GrownBy(base', w.(store := w.store[n := sb], nextId := nextId), names)
  {
    base' := base.(store := base.store[n := sb]);
    var w' := w.(store := w.store[n := sb], nextId := nextId);
    hide RecordsGrown, ContainersGrown;
    ErrorGrowsRecords(base, base', w, w', names, n, sb);
    ErrorGrowsContainers(base, base', w, w', names, n, sb);
  }

  /** A creation that fails leaves what was grown before, and at most an Error record. */
  lemma CreateFailureKeeps(base: World, w: World, names: set<Name>, req: CreateRequest, f: CreateFaults)
    returns (base': World)
    requires Agrees(w) && GrownBy(base, w, names) && Create(w, req, f).1 != Ok && f.destroy
    ensures SameButError(base, base', req.name) && GrownBy(base', Create(w, req, f).0, names)
  {
    assert w.nextId !in w.containers;
    hide GrownBy, Provision, SameButError;
    if Admission(w, req) == Ok {
      var sb := ProvisionFails(w, req.name, Draft(w, req), w.env.blueprints[req.blueprint].hasProbe, f);
      base' := ErrorGrows(base, w, names, req.name, sb, Create(w, req, f).0.nextId);
    } else {
      base' := base;
      BaseIsSame(base, req.name);
    }
  }

  lemma BaseIsSame(base: World, n: Name)
    ensures SameButError(base, base, n)
  {
  }

  /** `w` without the sandbox `n` and its container `id`. */
  function Without(w: World, n: Name, id: Id): World {
    w.(store := w.store - {n}, containers := w.containers - {id}, gauge := w.gauge - 1)
  }

  lemma DestroyNew(base: World, w: World, n: Name)
    requires IsNewIn(base, w, n)
    ensures Destroy(w, n, true).0 == Without(w, n, w.store[n].runtimeId.value)
  {
  }

  lemma WithoutShrinksRecords(base: World, w: World, names: set<Name>, n: Name, id: Id)
    requires Distinct(w.store) && RecordsGrown(base, w, names) && n in names && n in w.store && w.store[n].runtimeId == Some(id)
    ensures RecordsGrown(base, Without(w, n, id), names - {n})
  {
    var w' := Without(w, n, id);
    assert IsNewIn(base, w, n);
    forall m | m in names - {n}
      ensures IsNewIn(base, w', m)
    {
      assert IsNewIn(base, w, m);
    }
  }

  lemma WithoutShrinksContainers(base: World, w: World, names: set<Name>, n: Name, id: Id)
    requires ContainersGrown(base, w, names) && id !in base.containers && n in w.store && w.store[n].runtimeId == Some(id)
    ensures ContainersGrown(base, Without(w, n, id), names - {n})
  {
  }

  /** Destroying a new sandbox takes away exactly what its creation added. */
  lemma DestroyShrinks(base: World, w: World, names: set<Name>, n: Name)
    requires Agrees(w) && GrownBy(base, w, names) && n in names
    ensures GrownBy(base, Destroy(w, n, true).0, names - {n})
  {
    assert IsNewIn(base, w, n) && Distinct(w.store);
    hide Agrees, RecordsGrown, ContainersGrown, Destroy, Distinct;
    var id := w.store[n].runtimeId.value;
    DestroyNew(base, w, n);
    WithoutShrinksRecords(base, w, names, n, id);
    WithoutShrinksContainers(base, w, names, n, id);
    assert |names - {n}| == |names| - 1;
  }

  // ---- The two loops ----

  /** The sandbox names of members[lo..hi]. */
  function NamesOf(matrix: Name, members: seq<Member>, lo: nat, hi: nat): set<Name>
    requires hi <= |members|
  {
    set i | lo <= i < hi :: SandboxName(matrix, members[i])
  }

  /** The first `k` members have different names. */
  predicate DistinctUpTo(matrix: Name, members: seq<Member>, k: nat)
    requires k <= |members|
  {
    forall i, j :: 0 <= i < j < k ==> SandboxName(matrix, members[i]) != SandboxName(matrix, members[j])
  }

  lemma NamesExtend(matrix: Name, members: seq<Member>, k: nat)
    requires k < |members|
    ensures NamesOf(matrix, members, 0, k + 1) == NamesOf(matrix, members, 0, k) + {SandboxName(matrix, members[k])}
  {
  }

  lemma NamesShrink(matrix: Name, members: seq<Member>, j: nat, k: nat)
    requires j < k <= |members| && DistinctUpTo(matrix, members, k)
    ensures NamesOf(matrix, members, j + 1, k) == NamesOf(matrix, members, j, k) - {SandboxName(matrix, members[j])}
    ensures SandboxName(matrix, members[j]) in NamesOf(matrix, members, j, k)
  {
  }

  lemma CreateAgrees(w: World, req: CreateRequest, f: CreateFaults)
    requires Agrees(w)
    ensures Agrees(Create(w, req, f).0)
  {
    hide Agrees, Create;
    SectionAgrees(w, DoCreate(req, f));
  }

  /** What CreateMembers leaves: all members, or exactly those before the one that failed. */
  lemma {:induction false} CreateMembersGrow(
    base: World, w: World, matrix: Name, members: seq<Member>, team: string, f: MatrixFaults, i: nat)
    returns (base': World)
    requires i <= |members| && Agrees(w) && DistinctUpTo(matrix, members, i)
    requires GrownBy(base, w, NamesOf(matrix, members, 0, i))
    requires forall j: nat :: f.creates(j).destroy
    ensures var (w', outcome) := CreateMembers(w, matrix, members, team, f, i);
            && Agrees(w')
            && (outcome.Done? || (outcome.MemberFailed? && i <= outcome.index < |members|))
            && var k := if outcome.Done? then |members| else outcome.index;
            && GrownBy(base', w', NamesOf(matrix, members, 0, k)) && DistinctUpTo(matrix, members, k)
            && (outcome.Done? ==> base' == base)
            && (outcome.MemberFailed? ==> SameButError(base, base', SandboxName(matrix, members[k])))
    decreases |members| - i
  {
    hide Create, Agrees, GrownBy, SameButError;
    if i == |members| {
      base' := base;
    } else {
      var req := MemberRequest(matrix, members[i], team);
      CreateAgrees(w, req, f.creates(i));
      if Create(w, req, f.creates(i)).1 == Ok {
        CreateGrows(base, w, NamesOf(matrix, members, 0, i), req, f.creates(i));
        NamesExtend(matrix, members, i);
        DistinctExtend(matrix, members, i);
        base' := CreateMembersGrow(base, Create(w, req, f.creates(i)).0, matrix, members, team, f, i + 1);
      } else {
        base' := CreateFailureKeeps(base, w, NamesOf(matrix, members, 0, i), req, f.creates(i));
      }
    }
  }

  lemma DistinctExtend(matrix: Name, members: seq<Member>, k: nat)
    requires k < |members| && DistinctUpTo(matrix, members, k)
    requires SandboxName(matrix, members[k]) !in NamesOf(matrix, members, 0, k)
    ensures DistinctUpTo(matrix, members, k + 1)
  {
  }

  /** The rollback undoes members [i..stop], where `stop` is the first member with the failed name. */
  lemma {:induction false} RollbackShrinks(
    base: World, w: World, matrix: Name, members: seq<Member>, failed: Name, f: MatrixFaults, i: nat, stop: nat, k: nat)
    requires i <= stop <= k < |members| && DistinctUpTo(matrix, members, k)
    requires SandboxName(matrix, members[stop]) == failed
    requires forall j :: i <= j < stop ==> SandboxName(matrix, members[j]) != failed
    requires Agrees(w) && GrownBy(base, w, NamesOf(matrix, members, i, k))
    requires forall j: nat :: f.destroys(j)
    ensures GrownBy(base, Rollback(w, matrix, members, failed, f, i), NamesOf(matrix, members, stop, k))
    decreases stop - i
  {
    hide Destroy, Agrees, GrownBy;
    if i < stop {
      var n := SandboxName(matrix, members[i]);
      NamesShrink(matrix, members, i, k);
      DestroyShrinks(base, w, NamesOf(matrix, members, i, k), n);
      DestroyAgrees(w, n, true);
      RollbackShrinks(base, Destroy(w, n, true).0, matrix, members, failed, f, i + 1, stop, k);
    }
  }

  /** The first member with the same name as member `k`. */
  function FirstNamesake(matrix: Name, members: seq<Member>, k: nat): (j: nat)
    requires k < |members|
    ensures j <= k && SandboxName(matrix, members[j]) == SandboxName(matrix, members[k])
    ensures forall i :: 0 <= i < j ==> SandboxName(matrix, members[i]) != SandboxName(matrix, members[k])
  {
    FirstFrom(matrix, members, k, 0)
  }

  function FirstFrom(matrix: Name, members: seq<Member>, k: nat, i: nat): (j: nat)
    requires i <= k < |members|
    requires forall x :: 0 <= x < i ==> SandboxName(matrix, members[x]) != SandboxName(matrix, members[k])
    ensures j <= k && SandboxName(matrix, members[j]) == SandboxName(matrix, members[k])
    ensures forall x :: 0 <= x < j ==> SandboxName(matrix, members[x]) != SandboxName(matrix, members[k])
    decreases k - i
  {
    if SandboxName(matrix, members[i]) == SandboxName(matrix, members[k]) then i
    else FirstFrom(matrix, members, k, i + 1)
  }

  // ---- All or nothing ----

  /** Every cleanup call of the operation succeeds. */
  ghost predicate CleanupSucceeds(f: MatrixFaults) {
    f.dropNetwork && (forall j: nat :: f.creates(j).destroy) && (forall j: nat :: f.destroys(j))
  }

  lemma GrownWithoutNetwork(base: World, w: World, names: set<Name>, networks: set<string>)
    requires GrownBy(base, w, names)
    ensures GrownBy(base.(networks := networks), w.(networks := networks), names)
  {
    forall n | n in names
      ensures IsNewIn(base.(networks := networks), w.(networks := networks), n)
    {
      assert IsNewIn(base, w, n);
    }
  }

  lemma GrownByItself(w: World)
    ensures GrownBy(w, w, {})
  {
  }

  lemma NetworkAgrees(w: World, networks: set<string>)
    requires Agrees(w)
    ensures Agrees(w.(networks := networks))
  {
    assert forall n :: n in w.store && RecordAgrees(w, n) ==> RecordAgrees(w.(networks := networks), n);
  }

  /** What exactly a failed CreateMatrix leaves behind: nothing when a check or the network failed;
      otherwise at most one Error record under the failed member's name, and the members from the
      first one that bears that name up to the failed one. */
  lemma CreateMatrixFailure(w: World, matrix: Name, members: seq<Member>, team: string, f: MatrixFaults)
    returns (base: World)
    requires Agrees(w) && CleanupSucceeds(f) && CreateMatrix(w, matrix, members, team, f).1 != Done
    ensures var (w', outcome) := CreateMatrix(w, matrix, members, team, f);
            if !outcome.MemberFailed? then w' == w
            else
              var k := outcome.index;
              && k < |members| && DistinctUpTo(matrix, members, k)
              && SameButError(w, base, SandboxName(matrix, members[k]))
              && GrownBy(base, w', NamesOf(matrix, members, FirstNamesake(matrix, members, k), k))
  {
    hide Agrees, GrownBy, CheckQuota, CreateMembers, Rollback, FirstFrom;
    base := w;
    var outcome := CreateMatrix(w, matrix, members, team, f).1;
    var net := NetworkName(matrix);
    var w1 := w.(networks := w.networks + {net});
    NetworkAgrees(w, w1.networks);
    GrownByItself(w1);
    assert NamesOf(matrix, members, 0, 0) == {};
    var base1 := CreateMembersGrow(w1, w1, matrix, members, team, f, 0);
    if outcome.MemberFailed? {
      var w2 := CreateMembers(w1, matrix, members, team, f, 0).0;
      var k := outcome.index;
      var stop := FirstNamesake(matrix, members, k);
      RollbackShrinks(base1, w2, matrix, members, SandboxName(matrix, members[k]), f, 0, stop, k);
      base := base1.(networks := w.networks);
      GrownWithoutNetwork(base1, Rollback(w2, matrix, members, SandboxName(matrix, members[k]), f, 0),
                          NamesOf(matrix, members, stop, k), w.networks);
      RollbackKeepsRest(w2, matrix, members, SandboxName(matrix, members[k]), f, 0);
      CreateMembersKeepRest(w1, matrix, members, team, f, 0);
      assert w1.networks - {net} == w.networks;
    }
  }

  /** What the sandbox operations never change. */
  predicate SameRest(w: World, w': World) {
    w'.env == w.env && w'.matrices == w.matrices && w'.sessions == w.sessions && w'.networks == w.networks
  }

  lemma {:induction false} RollbackKeepsRest(
    w: World, matrix: Name, members: seq<Member>, failed: Name, f: MatrixFaults, i: nat)
    requires i <= |members|
    ensures SameRest(w, Rollback(w, matrix, members, failed, f, i))
    decreases |members| - i
  {
    if i < |members| && SandboxName(matrix, members[i]) != failed {
      RollbackKeepsRest(Destroy(w, SandboxName(matrix, members[i]), f.destroys(i)).0, matrix, members, failed, f, i + 1);
    }
  }

  lemma {:induction false} CreateMembersKeepRest(
    w: World, matrix: Name, members: seq<Member>, team: string, f: MatrixFaults, i: nat)
    requires i <= |members|
    ensures SameRest(w, CreateMembers(w, matrix, members, team, f, i).0)
    decreases |members| - i
  {
    if i < |members| {
      var req := MemberRequest(matrix, members[i], team);
      CreateKeepsRest(w, req, f.creates(i));
      hide Create;
      if Create(w, req, f.creates(i)).1 == Ok {
        CreateMembersKeepRest(Create(w, req, f.creates(i)).0, matrix, members, team, f, i + 1);
      }
    }
  }

  lemma CreateKeepsRest(w: World, req: CreateRequest, f: CreateFaults)
    ensures SameRest(w, Create(w, req, f).0)
  {
    if Admission(w, req) == Ok {
      var sb := ProvisionRecord(w, req.name, Draft(w, req), w.env.blueprints[req.blueprint].hasProbe, f);
    }
  }

  predicate DistinctNames(members: seq<Member>) {
    forall i, j :: 0 <= i < j < |members| ==> members[i].name != members[j].name
  }

  lemma SandboxNameInjective(matrix: Name, a: Member, b: Member)
    ensures SandboxName(matrix, a) == SandboxName(matrix, b) <==> a.name == b.name
  {
    var skip := |matrix + "-"|;
    assert SandboxName(matrix, a)[skip..] == a.name;
    assert SandboxName(matrix, b)[skip..] == b.name;
  }

  lemma DistinctNamesakes(matrix: Name, members: seq<Member>)
    ensures DistinctNames(members) <==> DistinctUpTo(matrix, members, |members|)
  {
    forall i, j | 0 <= i < j < |members|
      ensures SandboxName(matrix, members[i]) == SandboxName(matrix, members[j]) <==> members[i].name == members[j].name
    {
      SandboxNameInjective(matrix, members[i], members[j]);
    }
  }

  /** The failed CreateMatrix left everything as it was, but for one Error record under the failed name. */
  ghost predicate Undone(w: World, w': World, failed: Name) {
    exists base :: SameButError(w, base, failed) && w' == base.(nextId := w'.nextId)
  }

  /** With different member names a failed CreateMatrix undoes itself completely: containers, networks,
      matrices, gauge and every record are as before, but for one Error record under the failed name. */
  lemma CreateMatrixUndoes(w: World, matrix: Name, members: seq<Member>, team: string, f: MatrixFaults)
    requires Agrees(w) && CleanupSucceeds(f) && DistinctNames(members)
    requires CreateMatrix(w, matrix, members, team, f).1 != Done
    ensures var (w', outcome) := CreateMatrix(w, matrix, members, team, f);
            if outcome.MemberFailed?
            then outcome.index < |members| && Undone(w, w', SandboxName(matrix, members[outcome.index]))
            else w' == w
  {
    var base := CreateMatrixFailure(w, matrix, members, team, f);
    hide CreateMatrix, GrownBy, FirstFrom, SameButError, Agrees;
    var (w', outcome) := CreateMatrix(w, matrix, members, team, f);
    if outcome.MemberFailed? {
      var k := outcome.index;
      var j := FirstNamesake(matrix, members, k);
      SandboxNameInjective(matrix, members[j], members[k]);
      assert j == k;
      assert NamesOf(matrix, members, k, k) == {};
      GrownByNothing(base, w');
    }
  }

  // ---- Different names are also necessary ----

  /** No runtime call fails. */
  function NoMatrixFaults(): MatrixFaults {
    MatrixFaults(true, true, _ => NO_FAULTS, _ => true)
  }

  /** Nothing but a duplicate name stands in the way of creating the matrix. */
  ghost predicate Unobstructed(w: World, matrix: Name, members: seq<Member>) {
    && matrix !in w.matrices && NetworkName(matrix) !in w.networks
    && forall m :: m in members ==> m.blueprint in w.env.blueprints && SandboxName(matrix, m) !in w.store
  }

  lemma UnobstructedCreate(w: World, req: CreateRequest)
    requires req.name !in w.store && req.blueprint in w.env.blueprints && req.team == "" && req.workspaceAllowed
    ensures Create(w, req, NO_FAULTS).1 == Ok
  {
  }

  /** Without faults only a name that was already used for an earlier member makes a member fail. */
  lemma {:induction false} OnlyNamesakesFail(base: World, w: World, matrix: Name, members: seq<Member>, i: nat)
    requires i <= |members| && Agrees(w) && GrownBy(base, w, NamesOf(matrix, members, 0, i))
    requires forall m :: m in members ==> m.blueprint in base.env.blueprints && SandboxName(matrix, m) !in base.store
    ensures var outcome := CreateMembers(w, matrix, members, "", NoMatrixFaults(), i).1;
            outcome.MemberFailed? && outcome.index < |members| ==>
              SandboxName(matrix, members[outcome.index]) in NamesOf(matrix, members, 0, outcome.index)
    decreases |members| - i
  {
    if i < |members| {
      var req := MemberRequest(matrix, members[i], "");
      var names := NamesOf(matrix, members, 0, i);
      assert members[i] in members;
      if req.name !in names {
        UnobstructedCreate(w, req);
        CreateAgrees(w, req, NO_FAULTS);
        CreateGrows(base, w, names, req, NO_FAULTS);
        NamesExtend(matrix, members, i);
        hide Create, Agrees, GrownBy;
        OnlyNamesakesFail(base, Create(w, req, NO_FAULTS).0, matrix, members, i + 1);
      } else {
        assert req.name in w.store by {
          assert IsNewIn(base, w, req.name);
        }
      }
    }
  }

  lemma MembersFailAtNamesake(w: World, matrix: Name, members: seq<Member>)
    requires Agrees(w) && !DistinctNames(members)
    requires forall m :: m in members ==> m.blueprint in w.env.blueprints && SandboxName(matrix, m) !in w.store
    ensures var outcome := CreateMembers(w, matrix, members, "", NoMatrixFaults(), 0).1;
            && outcome.MemberFailed? && outcome.index < |members|
            && SandboxName(matrix, members[outcome.index]) in NamesOf(matrix, members, 0, outcome.index)
  {
    GrownByItself(w);
    assert NamesOf(matrix, members, 0, 0) == {};
    DistinctNamesakes(matrix, members);
    hide GrownBy, CreateMembers, Agrees;
    var base := CreateMembersGrow(w, w, matrix, members, "", NoMatrixFaults(), 0);
    OnlyNamesakesFail(w, w, matrix, members, 0);
  }

  lemma MatrixFailsAtNamesake(w: World, matrix: Name, members: seq<Member>)
    requires Agrees(w) && Unobstructed(w, matrix, members) && !DistinctNames(members)
    ensures var outcome := CreateMatrix(w, matrix, members, "", NoMatrixFaults()).1;
            && outcome.MemberFailed? && outcome.index < |members|
            && SandboxName(matrix, members[outcome.index]) in NamesOf(matrix, members, 0, outcome.index)
  {
    var w1 := w.(networks := w.networks + {NetworkName(matrix)});
    NetworkAgrees(w, w1.networks);
    hide Agrees, CreateMembers, DistinctNames, NamesOf, CleanUp;
    MembersFailAtNamesake(w1, matrix, members);
  }

  /** A matrix with two members of the same name is refused even when no call fails, and then the
      first of the two keeps running in a container that did not exist before. */
  lemma DuplicateNamesLeak(w: World, matrix: Name, members: seq<Member>)
    requires Agrees(w) && Unobstructed(w, matrix, members) && !DistinctNames(members)
    ensures var (w', outcome) := CreateMatrix(w, matrix, members, "", NoMatrixFaults());
            outcome != Done && w'.containers != w.containers
  {
    var f := NoMatrixFaults();
    MatrixFailsAtNamesake(w, matrix, members);
    assert CleanupSucceeds(f);
    hide CreateMatrix, GrownBy, Agrees, FirstFrom, Unobstructed, NoMatrixFaults, DistinctNames;
    var (w', outcome) := CreateMatrix(w, matrix, members, "", f);
    var base := CreateMatrixFailure(w, matrix, members, "", f);
    var k := outcome.index;
    var j := FirstNamesake(matrix, members, k);
    assert j < k;
    LeftoverIsLive(base, w', NamesOf(matrix, members, j, k), SandboxName(matrix, members[j]));
  }

  lemma LeftoverIsLive(base: World, w: World, names: set<Name>, n: Name)
    requires GrownBy(base, w, names) && n in names
    ensures w.containers != base.containers
  {
    assert IsNewIn(base, w, n);
  }

  /** Whatever calls fail, a CreateMatrix that does not succeed leaves the containers as they were. */
  ghost predicate AllOrNothing(w: World, matrix: Name, members: seq<Member>) {
    forall f: MatrixFaults | CleanupSucceeds(f) ::
      CreateMatrix(w, matrix, members, "", f).1 != Done ==>
        CreateMatrix(w, matrix, members, "", f).0.containers == w.containers
  }

  /** The exact condition: creation is all-or-nothing if and only if the member names differ. */
  lemma AllOrNothingIffDistinct(w: World, matrix: Name, members: seq<Member>)
    requires Agrees(w) && Unobstructed(w, matrix, members)
    ensures AllOrNothing(w, matrix, members) <==> DistinctNames(members)
  {
    hide CreateMatrix, Agrees, Unobstructed;
    if DistinctNames(members) {
      forall f: MatrixFaults | CleanupSucceeds(f) && CreateMatrix(w, matrix, members, "", f).1 != Done
        ensures CreateMatrix(w, matrix, members, "", f).0.containers == w.containers
      {
        CreateMatrixUndoes(w, matrix, members, "", f);
      }
    } else {
      DuplicateNamesLeak(w, matrix, members);
      assert CleanupSucceeds(NoMatrixFaults());
    }
  }
}
