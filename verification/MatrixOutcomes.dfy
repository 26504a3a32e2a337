/** When the operations on matrices succeed, which failure they report otherwise, and what becomes of each member. */
module MatrixOutcomes {
  import opened Wrappers
  import opened Records
  import opened Quota
  import opened Lifecycle
  import opened LifecycleProofs
  import opened LifecycleOutcomes
  import opened Matrices
  import opened MatrixCreate

  // ---- Stop, start and destroy: the loop over the members ----

  datatype Op = ToStop | ToStart | ToDestroy

  function Perform(w: World, op: Op, n: Name, ok: bool): (World, Outcome) {
    match op
    case ToStop => Stop(w, n, ok)
    case ToStart => Start(w, n, ok)
    case ToDestroy => Destroy(w, n, ok)
  }

  function PerformAll(w: World, op: Op, matrix: Name, members: seq<Member>, oks: nat -> bool, i: nat): (World, MatrixOutcome)
    requires i <= |members|
  {
    match op
    case ToStop => StopMembers(w, matrix, members, oks, i)
    case ToStart => StartMembers(w, matrix, members, oks, i)
    case ToDestroy => DestroyMembers(w, matrix, members, oks, i)
  }

  function Entry(w: World, n: Name): Option<Sandbox> {
    if n in w.store then Some(w.store[n]) else None
  }

  /** The operation works on this record, when the runtime answers `ok`. */
  predicate Works(op: Op, entry: Option<Sandbox>, ok: bool) {
    && entry.Some?
    && match op
       case ToStop => entry.value.state in {Running, Ready} && ok
       case ToStart => entry.value.state == Stopped && ok
       case ToDestroy => entry.value.runtimeId.Some? ==> ok
  }

  /** What becomes of the record. */
  function Result(op: Op, entry: Option<Sandbox>, ok: bool): Option<Sandbox> {
    if !Works(op, entry, ok) then entry
    else match op
      case ToStop => Some(entry.value.(state := Stopped))
      case ToStart => Some(entry.value.(state := Running))
      case ToDestroy => None
  }

  lemma PerformOutcome(w: World, op: Op, n: Name, ok: bool)
    requires Agrees(w)
    ensures var (w', outcome) := Perform(w, op, n, ok);
            && Agrees(w') && (outcome == Ok <==> Works(op, Entry(w, n), ok))
            && Entry(w', n) == Result(op, Entry(w, n), ok)
            && forall m :: m != n ==> Entry(w', m) == Entry(w, m)
  {
    match op {
      case ToStop =>
        StopOutcome(w, n, ok);
        StopAgrees(w, n, ok);
      case ToStart =>
        StartOutcome(w, n, ok);
        StartAgrees(w, n, ok);
      case ToDestroy =>
        DestroyOutcome(w, n, ok);
        DestroyAgrees(w, n, ok);
    }
    hide Agrees, Stop, Start, Destroy;
  }

  /** The loop goes on after a failure, and reports the first one. */
  lemma PerformAllNext(w: World, op: Op, matrix: Name, members: seq<Member>, oks: nat -> bool, i: nat)
    requires i < |members|
    ensures var (w1, outcome) := Perform(w, op, SandboxName(matrix, members[i]), oks(i));
            var (w2, rest) := PerformAll(w1, op, matrix, members, oks, i + 1);
            PerformAll(w, op, matrix, members, oks, i) == (w2, if outcome != Ok then MemberFailed(i, outcome) else rest)
  {
    hide Stop, Start, Destroy;
  }

  /** The members from i on have different names. */
  predicate DistinctFrom(matrix: Name, members: seq<Member>, i: nat) {
    forall a, b :: i <= a < b < |members| ==> SandboxName(matrix, members[a]) != SandboxName(matrix, members[b])
  }

  predicate MemberWorks(w: World, op: Op, matrix: Name, members: seq<Member>, oks: nat -> bool, j: nat)
    requires j < |members|
  {
    Works(op, Entry(w, SandboxName(matrix, members[j])), oks(j))
  }

  predicate AllWork(w: World, op: Op, matrix: Name, members: seq<Member>, oks: nat -> bool, i: nat) {
    forall j :: i <= j < |members| ==> MemberWorks(w, op, matrix, members, oks, j)
  }

  /** What the loop reports: nothing if it works for all members, otherwise the first one for which it does not. */
  predicate ReportsFirst(
    w: World, op: Op, matrix: Name, members: seq<Member>, oks: nat -> bool, i: nat, outcome: MatrixOutcome)
  {
    && (outcome == Done <==> AllWork(w, op, matrix, members, oks, i))
    && (outcome != Done ==>
          && outcome.MemberFailed? && i <= outcome.index < |members|
          && !MemberWorks(w, op, matrix, members, oks, outcome.index)
          && forall j :: i <= j < outcome.index ==> MemberWorks(w, op, matrix, members, oks, j))
  }

  lemma ReportNext(
    w: World, w1: World, op: Op, matrix: Name, members: seq<Member>, oks: nat -> bool, i: nat, outcome: MatrixOutcome)
    requires i < |members| && DistinctFrom(matrix, members, i) && ReportsFirst(w1, op, matrix, members, oks, i + 1, outcome)
    requires forall m :: m != SandboxName(matrix, members[i]) ==> Entry(w1, m) == Entry(w, m)
    requires MemberWorks(w, op, matrix, members, oks, i)
    ensures ReportsFirst(w, op, matrix, members, oks, i, outcome)
  {
    hide Works, Entry;
    forall j | i + 1 <= j < |members|
      ensures MemberWorks(w, op, matrix, members, oks, j) == MemberWorks(w1, op, matrix, members, oks, j)
    {
      assert SandboxName(matrix, members[i]) != SandboxName(matrix, members[j]);
    }
    hide MemberWorks;
  }

  /** What becomes of the records: of each member from i on its own result, of all others nothing. */
  ghost predicate EachOnItsOwn(
    w: World, w': World, op: Op, matrix: Name, members: seq<Member>, oks: nat -> bool, i: nat)
    requires i <= |members|
  {
    && (forall j :: i <= j < |members| ==>
          var n := SandboxName(matrix, members[j]); Entry(w', n) == Result(op, Entry(w, n), oks(j)))
    && (forall n :: n !in NamesOf(matrix, members, i, |members|) ==> Entry(w', n) == Entry(w, n))
  }

  lemma EachNext(
    w: World, w1: World, w2: World, op: Op, matrix: Name, members: seq<Member>, oks: nat -> bool, i: nat)
    requires i < |members| && DistinctFrom(matrix, members, i) && EachOnItsOwn(w1, w2, op, matrix, members, oks, i + 1)
    requires var n := SandboxName(matrix, members[i]);
             && Entry(w1, n) == Result(op, Entry(w, n), oks(i))
             && forall m :: m != n ==> Entry(w1, m) == Entry(w, m)
    ensures EachOnItsOwn(w, w2, op, matrix, members, oks, i)
  {
    hide Result, Entry;
    assert SandboxName(matrix, members[i]) !in NamesOf(matrix, members, i + 1, |members|);
  }

  /** Every member is treated on its own, whatever happened to the others, and no other record changes. */
  lemma {:induction false} EachMemberOnItsOwn(
    w: World, op: Op, matrix: Name, members: seq<Member>, oks: nat -> bool, i: nat)
    requires i <= |members| && Agrees(w) && DistinctFrom(matrix, members, i)
    ensures var (w', outcome) := PerformAll(w, op, matrix, members, oks, i);
            && Agrees(w') && ReportsFirst(w, op, matrix, members, oks, i, outcome)
            && EachOnItsOwn(w, w', op, matrix, members, oks, i)
    decreases |members| - i
  {
    hide Agrees, Perform, Works, Result, Entry;
    if i < |members| {
      var n := SandboxName(matrix, members[i]);
      var (w1, outcome) := Perform(w, op, n, oks(i));
      PerformOutcome(w, op, n, oks(i));
      PerformAllNext(w, op, matrix, members, oks, i);
      EachMemberOnItsOwn(w1, op, matrix, members, oks, i + 1);
      hide PerformAll;
      var (w2, rest) := PerformAll(w1, op, matrix, members, oks, i + 1);
      EachNext(w, w1, w2, op, matrix, members, oks, i);
      hide EachOnItsOwn;
      if outcome == Ok {
        ReportNext(w, w1, op, matrix, members, oks, i, rest);
      } else {
        assert !MemberWorks(w, op, matrix, members, oks, i);
      }
    }
  }

  /** If the loop works for all members, their names differ. */
  lemma {:induction false} DoneMembersDiffer(
    w: World, op: Op, matrix: Name, members: seq<Member>, oks: nat -> bool, i: nat)
    requires i <= |members| && Agrees(w) && PerformAll(w, op, matrix, members, oks, i).1 == Done
    ensures DistinctFrom(matrix, members, i)
    decreases |members| - i
  {
    hide Agrees, Perform, EachOnItsOwn;
    if i < |members| {
      var n := SandboxName(matrix, members[i]);
      var w1 := Perform(w, op, n, oks(i)).0;
      PerformOutcome(w, op, n, oks(i));
      PerformAllNext(w, op, matrix, members, oks, i);
      hide PerformAll;
      DoneMembersDiffer(w1, op, matrix, members, oks, i + 1);
      EachMemberOnItsOwn(w1, op, matrix, members, oks, i + 1);
      forall b | i < b < |members|
        ensures n != SandboxName(matrix, members[b])
      {
        assert MemberWorks(w1, op, matrix, members, oks, b);
      }
    }
  }

  /** The loop succeeds if and only if the names differ and the operation works for each member. */
  lemma AllDoneIff(w: World, op: Op, matrix: Name, members: seq<Member>, oks: nat -> bool)
    requires Agrees(w)
    ensures PerformAll(w, op, matrix, members, oks, 0).1 == Done <==>
              DistinctFrom(matrix, members, 0) && AllWork(w, op, matrix, members, oks, 0)
  {
    hide Agrees, PerformAll;
    if PerformAll(w, op, matrix, members, oks, 0).1 == Done {
      DoneMembersDiffer(w, op, matrix, members, oks, 0);
    }
    if DistinctFrom(matrix, members, 0) {
      EachMemberOnItsOwn(w, op, matrix, members, oks, 0);
    }
  }

  /** A matrix is stopped if and only if it is active, its member names differ, each member is Running or Ready, and no
      runtime call fails. */
  lemma StopMatrixDoneIff(w: World, matrix: Name, oks: nat -> bool)
    requires Agrees(w)
    ensures var (w', outcome) := StopMatrix(w, matrix, oks);
            && w'.matrices == (if outcome == Done then w.matrices[matrix := w.matrices[matrix].(state := Halted)] else w.matrices)
            && w'.networks == w.networks
            && (outcome == Missing <==> matrix !in w.matrices)
            && (outcome == NotInState <==> matrix in w.matrices && w.matrices[matrix].state != Active)
            && (outcome == Done <==>
                  && matrix in w.matrices && w.matrices[matrix].state == Active
                  && DistinctFrom(matrix, w.matrices[matrix].members, 0)
                  && AllWork(w, ToStop, matrix, w.matrices[matrix].members, oks, 0))
  {
    if matrix in w.matrices {
      AllDoneIff(w, ToStop, matrix, w.matrices[matrix].members, oks);
      FailsAsMember(w, ToStop, matrix, w.matrices[matrix].members, oks, 0);
      MembersKeepRest(w, ToStop, matrix, w.matrices[matrix].members, oks, 0);
    }
    hide Agrees, StopMembers, AllWork, DistinctFrom;
  }

  /** A matrix is started if and only if it is stopped, its member names differ, each member is Stopped, and no runtime
      call fails. */
  lemma StartMatrixDoneIff(w: World, matrix: Name, oks: nat -> bool)
    requires Agrees(w)
    ensures var (w', outcome) := StartMatrix(w, matrix, oks);
            && w'.matrices == (if outcome == Done then w.matrices[matrix := w.matrices[matrix].(state := Active)] else w.matrices)
            && w'.networks == w.networks
            && (outcome == Missing <==> matrix !in w.matrices)
            && (outcome == NotInState <==> matrix in w.matrices && w.matrices[matrix].state != Halted)
            && (outcome == Done <==>
                  && matrix in w.matrices && w.matrices[matrix].state == Halted
                  && DistinctFrom(matrix, w.matrices[matrix].members, 0)
                  && AllWork(w, ToStart, matrix, w.matrices[matrix].members, oks, 0))
  {
    if matrix in w.matrices {
      AllDoneIff(w, ToStart, matrix, w.matrices[matrix].members, oks);
      FailsAsMember(w, ToStart, matrix, w.matrices[matrix].members, oks, 0);
      MembersKeepRest(w, ToStart, matrix, w.matrices[matrix].members, oks, 0);
    }
    hide Agrees, StartMembers, AllWork, DistinctFrom;
  }

  /** DestroyMatrix reports success if and only if there is a record, the member names differ, and each member has a
      record whose container is destroyed. */
  lemma DestroyMatrixDoneIff(w: World, matrix: Name, oks: nat -> bool, dropNetwork: bool)
    requires Agrees(w)
    ensures var (w', outcome) := DestroyMatrix(w, matrix, oks, dropNetwork);
            && w'.matrices == w.matrices - {matrix}
            && w'.networks ==
               (if matrix in w.matrices && dropNetwork then w.networks - {"smx-matrix-" + matrix} else w.networks)
            && (outcome == Missing <==> matrix !in w.matrices)
            && (outcome == Done <==>
                  && matrix in w.matrices && DistinctFrom(matrix, w.matrices[matrix].members, 0)
                  && AllWork(w, ToDestroy, matrix, w.matrices[matrix].members, oks, 0))
  {
    if matrix in w.matrices {
      AllDoneIff(w, ToDestroy, matrix, w.matrices[matrix].members, oks);
      FailsAsMember(w, ToDestroy, matrix, w.matrices[matrix].members, oks, 0);
      MembersKeepRest(w, ToDestroy, matrix, w.matrices[matrix].members, oks, 0);
    }
    hide Agrees, DestroyMembers, AllWork, DistinctFrom;
  }

  lemma {:induction false} FailsAsMember(w: World, op: Op, matrix: Name, members: seq<Member>, oks: nat -> bool, i: nat)
    requires i <= |members|
    ensures var outcome := PerformAll(w, op, matrix, members, oks, i).1; outcome == Done || outcome.MemberFailed?
    decreases |members| - i
  {
    if i < |members| {
      PerformAllNext(w, op, matrix, members, oks, i);
      hide PerformAll, Perform;
      FailsAsMember(Perform(w, op, SandboxName(matrix, members[i]), oks(i)).0, op, matrix, members, oks, i + 1);
    }
  }

  lemma {:induction false} MembersKeepRest(w: World, op: Op, matrix: Name, members: seq<Member>, oks: nat -> bool, i: nat)
    requires i <= |members|
    ensures SameRest(w, PerformAll(w, op, matrix, members, oks, i).0)
    decreases |members| - i
  {
    if i < |members| {
      var n := SandboxName(matrix, members[i]);
      var w1 := Perform(w, op, n, oks(i)).0;
      assert SameRest(w, w1);
      PerformAllNext(w, op, matrix, members, oks, i);
      hide PerformAll, Perform;
      MembersKeepRest(w1, op, matrix, members, oks, i + 1);
    }
  }

  // ---- Create ----

  /** The check before the creation: room for one more matrix and for all its members. */
  lemma MatrixCheckIff(w: World, team: string, members: seq<Member>)
    requires team in w.env.quotas && In64(Total(w.store, team, Gpus))
    ensures var q := w.env.quotas[team];
            CheckQuota(w.env.quotas, w.store, w.matrices, w.sessions, team, MatrixRequest(members)).None? <==>
              && (q.maxSandboxes > 0 && members != [] ==> Total(w.store, team, Sandboxes) + |members| <= q.maxSandboxes)
              && (q.maxMatrices > 0 ==> |set m | m in w.matrices && w.matrices[m].team == team| + 1 <= q.maxMatrices)
  {
    var req := MatrixRequest(members);
    CheckQuotaExact(w.env.quotas, w.store, w.matrices, w.sessions, team, req);
    hide CheckQuota, Total;
    var first := FirstBroken(w.env.quotas[team], w.store, w.matrices, w.sessions, team, req);
    assert first.None? ==> forall c: Check :: !Breaks(w.env.quotas[team], w.store, w.matrices, w.sessions, team, req, c);
  }

  /** The reasons not to begin, in order. */
  lemma CreateMatrixRefusals(w: World, matrix: Name, members: seq<Member>, team: string, f: MatrixFaults)
    ensures var (w', outcome) := CreateMatrix(w, matrix, members, team, f);
            var refusal := CheckQuota(w.env.quotas, w.store, w.matrices, w.sessions, team, MatrixRequest(members));
            var checked := w.env.enforced && team != "";
            && (outcome == Exists <==> matrix in w.matrices)
            && (outcome.QuotaRefused? <==> matrix !in w.matrices && checked && refusal.Some?)
            && (outcome.QuotaRefused? ==> refusal == Some(outcome.refusal))
            && (outcome == NetworkFailed <==>
                  && matrix !in w.matrices && (checked ==> refusal.None?)
                  && (!f.addNetwork || "smx-matrix-" + matrix in w.networks))
            && (outcome == Exists || outcome.QuotaRefused? || outcome == NetworkFailed ==> w' == w)
  {
    hide CheckQuota, CreateMembers, CleanUp;
    MembersFailAsMembers(w.(networks := w.networks + {NetworkName(matrix)}), matrix, members, team, f, 0);
  }

  lemma {:induction false} MembersFailAsMembers(
    w: World, matrix: Name, members: seq<Member>, team: string, f: MatrixFaults, i: nat)
    requires i <= |members|
    ensures var outcome := CreateMembers(w, matrix, members, team, f, i).1;
            outcome == Done || (outcome.MemberFailed? && i <= outcome.index < |members|)
    decreases |members| - i
  {
    hide Create;
    if i < |members| {
      MembersFailAsMembers(
        Create(w, MemberRequest(matrix, members[i], team), f.creates(i)).0, matrix, members, team, f, i + 1);
    }
  }

  /** What a creation that began does to records and networks of matrices: it adds both if it succeeds; if it fails, the
      network is left behind exactly when it could not be dropped. */
  lemma CreateMatrixRecordsAndNetworks(w: World, matrix: Name, members: seq<Member>, team: string, f: MatrixFaults)
    ensures var (w', outcome) := CreateMatrix(w, matrix, members, team, f);
            var net := "smx-matrix-" + matrix;
            && (outcome == Done ==>
                  w'.matrices == w.matrices[matrix := Matrix(members, team, Active)] && w'.networks == w.networks + {net})
            && (outcome.MemberFailed? ==>
                  w'.matrices == w.matrices && w'.networks == if f.dropNetwork then w.networks else w.networks + {net})
  {
    var w1 := w.(networks := w.networks + {NetworkName(matrix)});
    CreateMembersKeepRest(w1, matrix, members, team, f, 0);
    MembersFailAsMembers(w1, matrix, members, team, f, 0);
    var (w2, outcome) := CreateMembers(w1, matrix, members, team, f, 0);
    if outcome.MemberFailed? {
      RollbackKeepsRest(w2, matrix, members, SandboxName(matrix, members[outcome.index]), f, 0);
    }
    hide CreateMembers, Rollback, CheckQuota;
    assert NetworkName(matrix) !in w.networks ==> w1.networks - {NetworkName(matrix)} == w.networks;
  }

  /** Without a quota in the way, this member can be created. */
  predicate Creatable(w: World, matrix: Name, m: Member, f: CreateFaults) {
    && matrix + "-" + m.name !in w.store && m.blueprint in w.env.blueprints
    && AllSucceed(f, w.env.blueprints[m.blueprint].hasProbe)
  }

  lemma CreateMemberIff(w: World, matrix: Name, m: Member, team: string, f: CreateFaults)
    requires !Governed(w.env, team)
    ensures var (w', outcome) := Create(w, MemberRequest(matrix, m, team), f);
            && (outcome == Ok <==> Creatable(w, matrix, m, f))
            && (outcome == Ok ==> w'.env == w.env && w'.store.Keys == w.store.Keys + {SandboxName(matrix, m)})
  {
    var req := MemberRequest(matrix, m, team);
    AdmissionOutcome(w, req);
    CreateOkIff(w, req, f);
    hide Create, Admission, AllSucceed, CheckQuota;
    if Create(w, req, f).1 == Ok {
      CreateLeaves(w, req, f);
    }
  }

  predicate AllCreatable(w: World, matrix: Name, members: seq<Member>, f: MatrixFaults, i: nat) {
    forall j :: i <= j < |members| ==> Creatable(w, matrix, members[j], f.creates(j))
  }

  /** The members are all created if and only if their names differ and each can be created. */
  lemma {:induction false} CreateMembersDoneIff(
    w: World, matrix: Name, members: seq<Member>, team: string, f: MatrixFaults, i: nat)
    requires i <= |members| && !Governed(w.env, team)
    ensures CreateMembers(w, matrix, members, team, f, i).1 == Done <==>
              DistinctFrom(matrix, members, i) && AllCreatable(w, matrix, members, f, i)
    decreases |members| - i
  {
    if i < |members| {
      hide Create, AllSucceed;
      CreateMemberIff(w, matrix, members[i], team, f.creates(i));
      var (w1, outcome) := Create(w, MemberRequest(matrix, members[i], team), f.creates(i));
      if outcome == Ok {
        CreateMembersDoneIff(w1, matrix, members, team, f, i + 1);
        hide CreateMembers;
        CreatableNext(w, w1, matrix, members, f, i);
      } else {
        assert !AllCreatable(w, matrix, members, f, i);
      }
    }
  }

  lemma CreatableNext(w: World, w1: World, matrix: Name, members: seq<Member>, f: MatrixFaults, i: nat)
    requires i < |members| && Creatable(w, matrix, members[i], f.creates(i))
    requires w1.env == w.env && w1.store.Keys == w.store.Keys + {SandboxName(matrix, members[i])}
    ensures DistinctFrom(matrix, members, i + 1) && AllCreatable(w1, matrix, members, f, i + 1) <==>
            DistinctFrom(matrix, members, i) && AllCreatable(w, matrix, members, f, i)
  {
    hide AllSucceed;
    forall j | i < j < |members|
      ensures Creatable(w1, matrix, members[j], f.creates(j)) <==>
              Creatable(w, matrix, members[j], f.creates(j)) && SandboxName(matrix, members[j]) != SandboxName(matrix, members[i])
    {
    }
    hide Creatable, SandboxName;
  }

  /** A matrix of no team, or without a quota checker, is created if and only if its name and its network are free, the
      member names differ, and each member can be created. */
  lemma CreateMatrixDoneIff(w: World, matrix: Name, members: seq<Member>, team: string, f: MatrixFaults)
    requires !Governed(w.env, team)
    ensures CreateMatrix(w, matrix, members, team, f).1 == Done <==>
              && matrix !in w.matrices && f.addNetwork && "smx-matrix-" + matrix !in w.networks
              && DistinctFrom(matrix, members, 0) && AllCreatable(w, matrix, members, f, 0)
  {
    var w1 := w.(networks := w.networks + {NetworkName(matrix)});
    CreateMembersDoneIff(w1, matrix, members, team, f, 0);
    assert AllCreatable(w1, matrix, members, f, 0) <==> AllCreatable(w, matrix, members, f, 0) by {
      assert forall j :: 0 <= j < |members| ==>
        (Creatable(w1, matrix, members[j], f.creates(j)) <==> Creatable(w, matrix, members[j], f.creates(j)));
    }
    hide CreateMembers, CleanUp, AllCreatable, DistinctFrom;
  }
}
