/** Stopping, starting and destroying a matrix: what a call that reports success has done. */
module MatrixRoundTrip {
  import opened Wrappers
  import opened Records
  import opened Lifecycle
  import opened LifecycleProofs
  import opened Matrices
  import opened MatrixCreate

  /** The container `id` is the one a record in `names` stands for. */
  predicate OwnedBy(w: World, id: Id, names: set<Name>)
    requires id in w.containers
  {
    var n := w.containers[id].owner;
    n in names && n in w.store && w.store[n].runtimeId == Some(id)
  }

  /** `w'` is `w` with the records in `names` in state `st` and their containers in state `cst`, and nothing
      else changed but the gauge. */
  ghost predicate Switched(w: World, w': World, names: set<Name>, st: SandboxState, cst: ContainerState) {
    && w' == w.(store := w'.store, containers := w'.containers, gauge := w'.gauge)
    && names <= w.store.Keys
    && w'.store.Keys == w.store.Keys && w'.containers.Keys == w.containers.Keys
    && (forall n :: n in w.store ==>
          w'.store[n] == if n in names then w.store[n].(state := st) else w.store[n])
    && (forall id :: id in w.containers ==>
          w'.containers[id] == if OwnedBy(w, id, names) then w.containers[id].(state := cst) else w.containers[id])
  }

  /** A switch of one record followed by a switch of others is a switch of them all. */
  lemma SwitchedTogether(
    w: World, w1: World, w2: World, n: Name, names: set<Name>, st: SandboxState, cst: ContainerState)
    requires Switched(w, w1, {n}, st, cst) && Switched(w1, w2, names, st, cst) && n !in names
    ensures Switched(w, w2, {n} + names, st, cst)
  {
  }

  lemma StopSwitches(w: World, n: Name, ok: bool)
    requires Agrees(w) && Stop(w, n, ok).1 == Ok
    ensures n in w.store && IsActive(w.store[n])
    ensures Switched(w, Stop(w, n, ok).0, {n}, Stopped, Exited) && Stop(w, n, ok).0.gauge == w.gauge - 1
  {
    assert RecordAgrees(w, n);
  }

  lemma StartSwitches(w: World, n: Name, ok: bool)
    requires Agrees(w) && Start(w, n, ok).1 == Ok
    ensures n in w.store && w.store[n].state == Stopped
    ensures Switched(w, Start(w, n, ok).0, {n}, Running, Up) && Start(w, n, ok).0.gauge == w.gauge + 1
  {
    assert RecordAgrees(w, n);
  }

  /** What a switch of the record `n` alone left as it was. */
  lemma RestUnswitched(w: World, w1: World, n: Name, st: SandboxState, cst: ContainerState, m: Name)
    requires Switched(w, w1, {n}, st, cst)
    ensures m == n ==> m in w1.store && w1.store[m].state == st
    ensures m != n && m in w1.store ==> m in w.store && w.store[m] == w1.store[m]
  {
    hide OwnedBy;
  }

  lemma OneMore(n: Name, names: set<Name>)
    requires n !in names
    ensures |{n} + names| == 1 + |names|
  {
  }

  lemma NamesFirst(matrix: Name, members: seq<Member>, i: nat)
    requires i < |members|
    ensures NamesOf(matrix, members, i, |members|) ==
            {SandboxName(matrix, members[i])} + NamesOf(matrix, members, i + 1, |members|)
  {
  }

  lemma NamesOfNone(w: World, matrix: Name, members: seq<Member>, st: SandboxState, cst: ContainerState)
    ensures NamesOf(matrix, members, |members|, |members|) == {} && Switched(w, w, {}, st, cst)
  {
  }

  /** The loop of StopMatrix, when every call succeeds. */
  lemma {:induction false} StopMembersSwitch(w: World, matrix: Name, members: seq<Member>, oks: nat -> bool, i: nat)
    requires i <= |members| && Agrees(w) && StopMembers(w, matrix, members, oks, i).1 == Done
    ensures var w' := StopMembers(w, matrix, members, oks, i).0;
            var names := NamesOf(matrix, members, i, |members|);
            && Agrees(w') && Switched(w, w', names, Stopped, Exited)
            && w'.gauge == w.gauge - |names|
            && forall n :: n in names ==> n in w.store && IsActive(w.store[n])
    decreases |members| - i
  {
    hide Stop, Agrees, Switched, NamesOf;
    if i == |members| {
      NamesOfNone(w, matrix, members, Stopped, Exited);
    } else {
      var n := SandboxName(matrix, members[i]);
      var w1 := Stop(w, n, oks(i)).0;
      StopSwitches(w, n, oks(i));
      StopAgrees(w, n, oks(i));
      StopMembersSwitch(w1, matrix, members, oks, i + 1);
      NamesFirst(matrix, members, i);
      var rest := NamesOf(matrix, members, i + 1, |members|);
      forall m | m in rest
        ensures m != n && m in w.store && IsActive(w.store[m])
      {
        RestUnswitched(w, w1, n, Stopped, Exited, m);
      }
      SwitchedTogether(w, w1, StopMembers(w1, matrix, members, oks, i + 1).0, n, rest, Stopped, Exited);
      OneMore(n, rest);
    }
  }

  /** The loop of StartMatrix, when every call succeeds. */
  lemma {:induction false} StartMembersSwitch(w: World, matrix: Name, members: seq<Member>, oks: nat -> bool, i: nat)
    requires i <= |members| && Agrees(w) && StartMembers(w, matrix, members, oks, i).1 == Done
    ensures var w' := StartMembers(w, matrix, members, oks, i).0;
            var names := NamesOf(matrix, members, i, |members|);
            && Agrees(w') && Switched(w, w', names, Running, Up)
            && w'.gauge == w.gauge + |names|
            && forall n :: n in names ==> n in w.store && w.store[n].state == Stopped
    decreases |members| - i
  {
    hide Start, Agrees, Switched, NamesOf;
    if i == |members| {
      NamesOfNone(w, matrix, members, Running, Up);
    } else {
      var n := SandboxName(matrix, members[i]);
      var w1 := Start(w, n, oks(i)).0;
      StartSwitches(w, n, oks(i));
      StartAgrees(w, n, oks(i));
      StartMembersSwitch(w1, matrix, members, oks, i + 1);
      NamesFirst(matrix, members, i);
      var rest := NamesOf(matrix, members, i + 1, |members|);
      forall m | m in rest
        ensures m != n && m in w.store && w.store[m].state == Stopped
      {
        RestUnswitched(w, w1, n, Running, Up, m);
      }
      SwitchedTogether(w, w1, StartMembers(w1, matrix, members, oks, i + 1).0, n, rest, Running, Up);
      OneMore(n, rest);
    }
  }

  /** StopMatrix that reports success: every member is Stopped and its container is not running. */
  lemma StopMatrixStopsAll(w: World, matrix: Name, oks: nat -> bool)
    requires Agrees(w) && StopMatrix(w, matrix, oks).1 == Done
    ensures var w' := StopMatrix(w, matrix, oks).0;
            && matrix in w.matrices && matrix in w'.matrices && w'.matrices[matrix].state == Halted
            && forall m :: m in w.matrices[matrix].members ==>
                 var n := SandboxName(matrix, m);
                 && n in w'.store && w'.store[n].state == Stopped && w'.store[n].runtimeId.Some?
                 && w'.store[n].runtimeId.value in w'.containers
                 && w'.containers[w'.store[n].runtimeId.value].state == Exited
  {
    var members := w.matrices[matrix].members;
    hide StopMembers;
    StopMembersSwitch(w, matrix, members, oks, 0);
    var w1 := StopMembers(w, matrix, members, oks, 0).0;
    forall m | m in members
      ensures var n := SandboxName(matrix, m); n in w1.store && w1.store[n].state == Stopped && RecordAgrees(w1, n)
    {
      var i :| 0 <= i < |members| && members[i] == m;
      assert SandboxName(matrix, m) in NamesOf(matrix, members, 0, |members|);
    }
  }

  /** The store with the records in `names` set to Running. */
  function AllRunning(store: map<Name, Sandbox>, names: set<Name>): map<Name, Sandbox> {
    map n | n in store :: if n in names then store[n].(state := Running) else store[n]
  }

  /** One container through a stop and a start of its record. */
  lemma SwitchedBackOne(w: World, w1: World, w2: World, names: set<Name>, id: Id)
    requires Agrees(w) && (forall n :: n in names ==> n in w.store && IsActive(w.store[n]))
    requires Switched(w, w1, names, Stopped, Exited) && Switched(w1, w2, names, Running, Up)
    requires id in w.containers
    ensures id in w2.containers && w2.containers[id] == w.containers[id]
  {
    var n := w.containers[id].owner;
    assert n in w.store ==> RecordAgrees(w, n);
    hide Agrees;
    assert w1.containers[id].owner == n;
    assert n in w.store ==> w1.store[n].runtimeId == w.store[n].runtimeId;
    assert OwnedBy(w, id, names) == OwnedBy(w1, id, names);
    hide Switched;
  }

  lemma SwitchedBack(w: World, w1: World, w2: World, names: set<Name>)
    requires Agrees(w) && (forall n :: n in names ==> n in w.store && IsActive(w.store[n]))
    requires Switched(w, w1, names, Stopped, Exited) && Switched(w1, w2, names, Running, Up)
    ensures w2.containers == w.containers && w2.store == AllRunning(w.store, names)
  {
    hide Agrees, OwnedBy;
    assert w2.containers.Keys == w.containers.Keys;
    forall id | id in w.containers
      ensures w2.containers[id] == w.containers[id]
    {
      SwitchedBackOne(w, w1, w2, names, id);
    }
    assert w2.store == AllRunning(w.store, names);
  }

  /** A successful stop followed by a successful start gives back the same world: the same containers
      run again under the same records; members that were Ready are now Running. */
  lemma StopStartRoundTrip(w: World, matrix: Name, stops: nat -> bool, starts: nat -> bool)
    requires Agrees(w)
    requires StopMatrix(w, matrix, stops).1 == Done
    requires StartMatrix(StopMatrix(w, matrix, stops).0, matrix, starts).1 == Done
    ensures var members := w.matrices[matrix].members;
            StartMatrix(StopMatrix(w, matrix, stops).0, matrix, starts).0 ==
              w.(store := AllRunning(w.store, NamesOf(matrix, members, 0, |members|)))
  {
    var mx := w.matrices[matrix];
    var names := NamesOf(matrix, mx.members, 0, |mx.members|);
    hide StopMembers, StartMembers, Agrees, Switched, NamesOf, AllRunning;
    StopMembersSwitch(w, matrix, mx.members, stops, 0);
    var w1 := StopMembers(w, matrix, mx.members, stops, 0).0;
    SwitchedFrame(w, w1, names, Stopped, Exited);
    var w2 := w1.(matrices := w1.matrices[matrix := mx.(state := Halted)]);
    MatricesAgree(w1, w2.matrices);
    StartMembersSwitch(w2, matrix, mx.members, starts, 0);
    var w3 := StartMembers(w2, matrix, mx.members, starts, 0).0;
    SwitchedFrame(w2, w3, names, Running, Up);
    SwitchedWithMatrices(w2, w3, names, w.matrices);
    SwitchedBack(w, w1, w3.(matrices := w.matrices), names);
    assert w.matrices[matrix := mx.(state := Halted)][matrix := mx] == w.matrices;
  }

  lemma SwitchedFrame(w: World, w': World, names: set<Name>, st: SandboxState, cst: ContainerState)
    requires Switched(w, w', names, st, cst)
    ensures w' == w.(store := w'.store, containers := w'.containers, gauge := w'.gauge)
  {
  }

  lemma SwitchedWithMatrices(w: World, w': World, names: set<Name>, matrices: map<Name, Matrix>)
    requires Switched(w, w', names, Running, Up)
    ensures Switched(w.(matrices := matrices), w'.(matrices := matrices), names, Running, Up)
  {
    assert forall id :: id in w.containers ==> OwnedBy(w, id, names) == OwnedBy(w.(matrices := matrices), id, names);
  }

  lemma MatricesAgree(w: World, matrices: map<Name, Matrix>)
    requires Agrees(w)
    ensures Agrees(w.(matrices := matrices))
  {
    assert forall n :: n in w.store && RecordAgrees(w, n) ==> RecordAgrees(w.(matrices := matrices), n);
  }

  /** `w'` is `w` without the records in `names` and without their containers. */
  ghost predicate Removed(w: World, w': World, names: set<Name>) {
    && w' == w.(store := w'.store, containers := w'.containers, gauge := w'.gauge)
    && names <= w.store.Keys && w'.store == w.store - names
    && (forall id :: id in w'.containers <==> id in w.containers && !OwnedBy(w, id, names))
    && (forall id :: id in w'.containers ==> w'.containers[id] == w.containers[id])
  }

  lemma DestroyRemoves(w: World, n: Name, ok: bool)
    requires Agrees(w) && Destroy(w, n, ok).1 == Ok
    ensures Removed(w, Destroy(w, n, ok).0, {n})
  {
    assert RecordAgrees(w, n);
  }

  lemma RemovedTogether(w: World, w1: World, w2: World, n: Name, names: set<Name>)
    requires Removed(w, w1, {n}) && Removed(w1, w2, names)
    ensures Removed(w, w2, {n} + names)
  {
    assert w.store - {n} - names == w.store - ({n} + names);
  }

  lemma {:induction false} DestroyMembersRemove(w: World, matrix: Name, members: seq<Member>, oks: nat -> bool, i: nat)
    requires i <= |members| && Agrees(w) && DestroyMembers(w, matrix, members, oks, i).1 == Done
    ensures Removed(w, DestroyMembers(w, matrix, members, oks, i).0, NamesOf(matrix, members, i, |members|))
    decreases |members| - i
  {
    hide Destroy, Agrees;
    if i == |members| {
      assert NamesOf(matrix, members, i, |members|) == {};
    } else {
      var n := SandboxName(matrix, members[i]);
      var w1 := Destroy(w, n, oks(i)).0;
      DestroyRemoves(w, n, oks(i));
      DestroyAgrees(w, n, oks(i));
      DestroyMembersRemove(w1, matrix, members, oks, i + 1);
      hide Removed;
      NamesFirst(matrix, members, i);
      RemovedTogether(w, w1, DestroyMembers(w1, matrix, members, oks, i + 1).0, n,
                      NamesOf(matrix, members, i + 1, |members|));
    }
  }

  /** DestroyMatrix that reports success leaves no matrix record, and of the members neither records nor
      containers; everything else is as before. */
  lemma DestroyMatrixRemovesAll(w: World, matrix: Name, oks: nat -> bool, dropNetwork: bool)
    requires Agrees(w) && DestroyMatrix(w, matrix, oks, dropNetwork).1 == Done
    ensures var w' := DestroyMatrix(w, matrix, oks, dropNetwork).0;
            && matrix in w.matrices && w'.matrices == w.matrices - {matrix}
            && var members := w.matrices[matrix].members;
            && Removed(w, w'.(matrices := w.matrices, networks := w.networks), NamesOf(matrix, members, 0, |members|))
            && w'.networks == (if dropNetwork then w.networks - {NetworkName(matrix)} else w.networks)
  {
    hide DestroyMembers;
    DestroyMembersRemove(w, matrix, w.matrices[matrix].members, oks, 0);
  }
}
