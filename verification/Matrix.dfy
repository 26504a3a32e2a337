/** Matrices: groups of sandboxes created, stopped, started and destroyed together. */
module Matrices {
  import opened Wrappers
  import opened Records
  import opened Quota
  import opened Lifecycle

  /** Which runtime calls of a matrix operation succeed; the functions are indexed by member. */
  datatype MatrixFaults = MatrixFaults(
    addNetwork: bool, dropNetwork: bool, creates: nat -> CreateFaults, destroys: nat -> bool)

  datatype MatrixOutcome =
    | Done | Exists | Missing | NotInState | QuotaRefused(refusal: Refusal) | NetworkFailed
    | MemberFailed(index: nat, why: Outcome)

  function SandboxName(matrix: Name, m: Member): Name {
    matrix + "-" + m.name
  }

  function NetworkName(matrix: Name): string {
    "smx-matrix-" + matrix
  }

  function MemberRequest(matrix: Name, m: Member, team: string): CreateRequest {
    CreateRequest(SandboxName(matrix, m), m.blueprint, team, true)
  }

  /** Creates members[i..]; the outcome names the member that failed. */
  ghost function CreateMembers(
    w: World, matrix: Name, members: seq<Member>, team: string, f: MatrixFaults, i: nat): (World, MatrixOutcome)
    requires i <= |members|
    decreases |members| - i
  {
    if i == |members| then (w, Done)
    else
      var (w1, outcome) := Create(w, MemberRequest(matrix, members[i], team), f.creates(i));
      if outcome != Ok then (w1, MemberFailed(i, outcome))
      else CreateMembers(w1, matrix, members, team, f, i + 1)
  }

  /** The cleanup loop: destroys members[i..] up to the first one that bears the failed name. */
  function Rollback(
    w: World, matrix: Name, members: seq<Member>, failed: Name, f: MatrixFaults, i: nat): World
    requires i <= |members|
    decreases |members| - i
  {
    if i == |members| || SandboxName(matrix, members[i]) == failed then w
    else
      Rollback(Destroy(w, SandboxName(matrix, members[i]), f.destroys(i)).0, matrix, members, failed, f, i + 1)
  }

  function DropNetworkIf(w: World, net: string, ok: bool): World {
    if ok then w.(networks := w.networks - {net}) else w
  }

  ghost function CreateMatrix(
    w: World, matrix: Name, members: seq<Member>, team: string, f: MatrixFaults): (World, MatrixOutcome)
  {
    if matrix in w.matrices then (w, Exists)
    else
      var refusal := if !Governed(w.env, team) then None
                     else CheckQuota(w.env.quotas, w.store, w.matrices, w.sessions, team, MatrixRequest(members));
      if refusal.Some? then (w, QuotaRefused(refusal.value))
      else if !f.addNetwork || NetworkName(matrix) in w.networks then (w, NetworkFailed)
      else
        var w1 := w.(networks := w.networks + {NetworkName(matrix)});
        var (w2, outcome) := CreateMembers(w1, matrix, members, team, f, 0);
        if outcome != Done then
          (CleanUp(w2, matrix, members, outcome, f), outcome)
        else
          (w2.(matrices := w2.matrices[matrix := Matrix(members, team, Active)]), Done)
  }

  /** The failure path of CreateMatrix. */
  function CleanUp(w: World, matrix: Name, members: seq<Member>, outcome: MatrixOutcome, f: MatrixFaults): World {
    var failed := if outcome.MemberFailed? && outcome.index < |members|
                  then SandboxName(matrix, members[outcome.index]) else "";
    DropNetworkIf(Rollback(w, matrix, members, failed, f, 0), NetworkName(matrix), f.dropNetwork)
  }

  function MatrixRequest(members: seq<Member>): Request {
    Request(|members|, Unset, Unset, Unset, 0, 1, 0)
  }

  /** Stops members[i..] and goes on after a failure; the outcome is the first failure. */
  function StopMembers(
    w: World, matrix: Name, members: seq<Member>, oks: nat -> bool, i: nat): (World, MatrixOutcome)
    requires i <= |members|
    decreases |members| - i
  {
    if i == |members| then (w, Done)
    else
      var (w1, outcome) := Stop(w, SandboxName(matrix, members[i]), oks(i));
      var (w2, rest) := StopMembers(w1, matrix, members, oks, i + 1);
      (w2, if outcome != Ok then MemberFailed(i, outcome) else rest)
  }

  function StopMatrix(w: World, matrix: Name, oks: nat -> bool): (World, MatrixOutcome) {
    if matrix !in w.matrices then (w, Missing)
    else
      var mx := w.matrices[matrix];
      if mx.state != Active then (w, NotInState)
      else
        var (w1, outcome) := StopMembers(w, matrix, mx.members, oks, 0);
        if outcome != Done then (w1, outcome)
        else (w1.(matrices := w1.matrices[matrix := mx.(state := Halted)]), Done)
  }

  function StartMembers(
    w: World, matrix: Name, members: seq<Member>, oks: nat -> bool, i: nat): (World, MatrixOutcome)
    requires i <= |members|
    decreases |members| - i
  {
    if i == |members| then (w, Done)
    else
      var (w1, outcome) := Start(w, SandboxName(matrix, members[i]), oks(i));
      var (w2, rest) := StartMembers(w1, matrix, members, oks, i + 1);
      (w2, if outcome != Ok then MemberFailed(i, outcome) else rest)
  }

  function StartMatrix(w: World, matrix: Name, oks: nat -> bool): (World, MatrixOutcome) {
    if matrix !in w.matrices then (w, Missing)
    else
      var mx := w.matrices[matrix];
      if mx.state != Halted then (w, NotInState)
      else
        var (w1, outcome) := StartMembers(w, matrix, mx.members, oks, 0);
        if outcome != Done then (w1, outcome)
        else (w1.(matrices := w1.matrices[matrix := mx.(state := Active)]), Done)
  }

  function DestroyMembers(
    w: World, matrix: Name, members: seq<Member>, oks: nat -> bool, i: nat): (World, MatrixOutcome)
    requires i <= |members|
    decreases |members| - i
  {
    if i == |members| then (w, Done)
    else
      var (w1, outcome) := Destroy(w, SandboxName(matrix, members[i]), oks(i));
      var (w2, rest) := DestroyMembers(w1, matrix, members, oks, i + 1);
      (w2, if outcome != Ok then MemberFailed(i, outcome) else rest)
  }

  /** The network and the matrix record go even when a member could not be destroyed. */
  function DestroyMatrix(w: World, matrix: Name, oks: nat -> bool, dropNetwork: bool): (World, MatrixOutcome) {
    if matrix !in w.matrices then (w, Missing)
    else
      var (w1, outcome) := DestroyMembers(w, matrix, w.matrices[matrix].members, oks, 0);
      (DropNetworkIf(w1, NetworkName(matrix), dropNetwork).(matrices := w1.matrices - {matrix}), outcome)
  }
}
