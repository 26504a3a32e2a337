/** Matrix calls of one team that overlap. CreateMatrix checks the quota and saves the record in separate steps; StopMatrix
    and StartMatrix load the record and save it at the end, even if it was dropped meanwhile. Nothing is locked in
    between, so together they may exceed the limit. */
module MatrixRace {
  import opened Records
  import opened Quota
  import opened Lifecycle
  import opened LifecycleProofs
  import opened Matrices
  import opened MatrixRuns

  /** A record that a stop or a start has loaded, as it will save it. */
  datatype Loaded = Loaded(name: Name, record: Matrix)

  /** `inFlight` holds the names of the matrices whose creation has passed the check and not ended, `loaded` the records
      of the stops and starts under way. */
  datatype Sys = Sys(w: World, inFlight: multiset<Name>, loaded: seq<Loaded>)

  datatype Step =
    | Begin(matrix: Name, members: seq<Member>)
    | Commit(matrix: Name, members: seq<Member>)
    | Abort(matrix: Name)
    | Load(matrix: Name)
    | SaveBack(call: nat)
    | Fail(call: nat)
    | Elsewhere(section: Section)

  /** Everything else drops matrix records of the team, or saves over them, but adds none. */
  predicate AddsNone(w: World, s: Section, team: string) {
    s.SaveMatrix? && s.matrix.team == team ==> s.name in TeamMatrices(w.matrices, team)
  }

  /** At most `k` creations, and at most `p` stops and starts, of the team are under way at a time. */
  ghost predicate Enabled(s: Sys, step: Step, team: string, k: nat, p: nat) {
    match step
    case Begin(matrix, members) =>
      && |s.inFlight| < k && matrix !in s.w.matrices
      && (Governed(s.w.env, team) ==>
            CheckQuota(s.w.env.quotas, s.w.store, s.w.matrices, s.w.sessions, team, MatrixRequest(members)).None?)
    case Commit(matrix, _) => matrix in s.inFlight
    case Abort(matrix) => matrix in s.inFlight
    case Load(matrix) => |s.loaded| < p && matrix in TeamMatrices(s.w.matrices, team)
    case SaveBack(i) => i < |s.loaded|
    case Fail(i) => i < |s.loaded|
    case Elsewhere(section) => AddsNone(s.w, section, team)
  }

  function Switched(mx: Matrix): Matrix {
    mx.(state := if mx.state == Active then Halted else Active)
  }

  function Without(loaded: seq<Loaded>, i: nat): seq<Loaded>
    requires i < |loaded|
  {
    loaded[..i] + loaded[i + 1..]
  }

  function Stored(w: World, n: Name, mx: Matrix): World {
    w.(matrices := w.matrices[n := mx])
  }

  ghost function ApplyStep(s: Sys, step: Step, team: string, k: nat, p: nat): Sys
    requires Enabled(s, step, team, k, p)
  {
    match step
    case Begin(matrix, _) => s.(inFlight := s.inFlight + multiset{matrix})
    case Commit(matrix, members) =>
      s.(w := Stored(s.w, matrix, Matrix(members, team, Active)), inFlight := s.inFlight - multiset{matrix})
    case Abort(matrix) => s.(inFlight := s.inFlight - multiset{matrix})
    case Load(matrix) => s.(loaded := s.loaded + [Loaded(matrix, Switched(s.w.matrices[matrix]))])
    case SaveBack(i) =>
      s.(w := Stored(s.w, s.loaded[i].name, s.loaded[i].record), loaded := Without(s.loaded, i))
    case Fail(i) => s.(loaded := Without(s.loaded, i))
    case Elsewhere(section) => s.(w := Apply(s.w, section))
  }

  ghost predicate IsRun(w: World, team: string, k: nat, p: nat, steps: seq<Step>, states: seq<Sys>) {
    && |states| == |steps| + 1 && states[0] == Sys(w, multiset{}, [])
    && forall i :: 0 <= i < |steps| ==>
         Enabled(states[i], steps[i], team, k, p) && states[i + 1] == ApplyStep(states[i], steps[i], team, k, p)
  }

  function Count(w: World, team: string): nat {
    |TeamMatrices(w.matrices, team)|
  }

  predicate Limited(env: Env, team: string) {
    Governed(env, team) && team in env.quotas && env.quotas[team].maxMatrices > 0
  }

  function NamesOfLoaded(loaded: seq<Loaded>): set<Name> {
    set x | x in loaded :: x.name
  }

  /** The matrices of the team that are there, or may come back when a stop or a start ends. */
  function Claimed(w: World, loaded: seq<Loaded>, team: string): set<Name> {
    TeamMatrices(w.matrices, team) + NamesOfLoaded(loaded)
  }

  /** Those and the creations in flight together. */
  predicate Bounded(s: Sys, team: string, k: nat, p: nat) {
    && |s.loaded| <= p
    && (Limited(s.w.env, team) ==>
          |Claimed(s.w, s.loaded, team)| + |s.inFlight| <= s.w.env.quotas[team].maxMatrices - 1 + k + p)
  }

  // ---- Sizes ----

  lemma {:induction false} SubsetSize(a: set<Name>, b: set<Name>)
    requires a <= b
    ensures |a| <= |b|
  {
    assert b == a + (b - a);
  }

  lemma {:induction false} NamesSize(loaded: seq<Loaded>)
    ensures |NamesOfLoaded(loaded)| <= |loaded|
  {
    if loaded == [] {
      assert NamesOfLoaded(loaded) == {};
    } else {
      var init, last := loaded[..|loaded| - 1], loaded[|loaded| - 1];
      NamesSize(init);
      assert NamesOfLoaded(loaded) == NamesOfLoaded(init) + {last.name};
    }
  }

  lemma LoadedNames(loaded: seq<Loaded>, x: Loaded)
    ensures NamesOfLoaded(loaded + [x]) == NamesOfLoaded(loaded) + {x.name}
  {
  }

  lemma WithoutNames(loaded: seq<Loaded>, i: nat)
    requires i < |loaded|
    ensures NamesOfLoaded(Without(loaded, i)) <= NamesOfLoaded(loaded) && loaded[i].name in NamesOfLoaded(loaded)
  {
    assert forall x :: x in Without(loaded, i) ==> x in loaded;
    assert loaded[i] in loaded;
  }

  // ---- Every step keeps the bound ----

  lemma SectionMatrices(w: World, s: Section)
    ensures Apply(w, s).env == w.env
    ensures s.SaveMatrix? || s.DropMatrix? || Apply(w, s).matrices == w.matrices
  {
    if !s.SaveMatrix? && !s.DropMatrix? && !s.AddNetwork? && !s.DropNetwork? {
      SandboxSectionKeepsRest(w, s);
      hide Apply;
    }
  }

  lemma OtherAddsNone(w: World, s: Section, team: string)
    requires AddsNone(w, s, team)
    ensures Apply(w, s).env == w.env && TeamMatrices(Apply(w, s).matrices, team) <= TeamMatrices(w.matrices, team)
  {
    SectionMatrices(w, s);
    if s.SaveMatrix? {
      TeamMatricesSave(w.matrices, s.name, s.matrix, team);
    } else if s.DropMatrix? {
      TeamMatricesDrop(w.matrices, s.name, team);
    }
    hide TeamMatrices;
  }

  lemma SaveAddsOne(w: World, n: Name, mx: Matrix, team: string)
    ensures var w' := Stored(w, n, mx);
            w'.env == w.env && TeamMatrices(w'.matrices, team) <= TeamMatrices(w.matrices, team) + {n}
  {
    TeamMatricesSave(w.matrices, n, mx, team);
  }

  lemma CheckedHasRoom(s: Sys, step: Step, team: string, k: nat, p: nat)
    requires step.Begin? && Enabled(s, step, team, k, p) && Limited(s.w.env, team)
    ensures Count(s.w, team) + 1 <= s.w.env.quotas[team].maxMatrices
  {
    hide Total, TeamSessions, TeamMatrices;
  }

  lemma BeginKeepsBound(s: Sys, step: Step, team: string, k: nat, p: nat)
    requires step.Begin? && Enabled(s, step, team, k, p) && Bounded(s, team, k, p)
    ensures Bounded(ApplyStep(s, step, team, k, p), team, k, p)
  {
    if Limited(s.w.env, team) {
      CheckedHasRoom(s, step, team, k, p);
      NamesSize(s.loaded);
      hide CheckQuota, TeamMatrices, NamesOfLoaded;
    }
  }

  lemma SaveKeepsBound(s: Sys, step: Step, team: string, k: nat, p: nat)
    requires (step.Commit? || step.SaveBack?) && Enabled(s, step, team, k, p) && Bounded(s, team, k, p)
    ensures var s' := ApplyStep(s, step, team, k, p); s'.w.env == s.w.env && Bounded(s', team, k, p)
  {
    hide TeamMatrices, NamesOfLoaded;
    var s' := ApplyStep(s, step, team, k, p);
    var before, after := Claimed(s.w, s.loaded, team), Claimed(s'.w, s'.loaded, team);
    if step.Commit? {
      SaveAddsOne(s.w, step.matrix, Matrix(step.members, team, Active), team);
      SubsetSize(after, before + {step.matrix});
    } else {
      SaveAddsOne(s.w, s.loaded[step.call].name, s.loaded[step.call].record, team);
      WithoutNames(s.loaded, step.call);
      SubsetSize(after, before);
    }
  }

  lemma OtherKeepsBound(s: Sys, step: Step, team: string, k: nat, p: nat)
    requires (step.Load? || step.Fail? || step.Elsewhere?) && Enabled(s, step, team, k, p) && Bounded(s, team, k, p)
    ensures var s' := ApplyStep(s, step, team, k, p); s'.w.env == s.w.env && Bounded(s', team, k, p)
  {
    hide TeamMatrices, Apply, NamesOfLoaded;
    var s' := ApplyStep(s, step, team, k, p);
    match step {
      case Load(matrix) => LoadedNames(s.loaded, s'.loaded[|s.loaded|]);
      case Fail(i) => WithoutNames(s.loaded, i);
      case Elsewhere(section) =>
        OtherAddsNone(s.w, section, team);
    }
    SubsetSize(Claimed(s'.w, s'.loaded, team), Claimed(s.w, s.loaded, team));
  }

  lemma StepKeepsBound(s: Sys, step: Step, team: string, k: nat, p: nat)
    requires Enabled(s, step, team, k, p) && Bounded(s, team, k, p)
    ensures var s' := ApplyStep(s, step, team, k, p); s'.w.env == s.w.env && Bounded(s', team, k, p)
  {
    hide Apply, Claimed, CheckQuota, TeamMatrices;
    match step
    case Begin(_, _) => BeginKeepsBound(s, step, team, k, p);
    case Commit(_, _) => SaveKeepsBound(s, step, team, k, p);
    case SaveBack(_) => SaveKeepsBound(s, step, team, k, p);
    case Abort(_) =>
    case _ => OtherKeepsBound(s, step, team, k, p);
  }

  /** With at most k creations and at most p stops and starts under way at a time, a team never has more than
      limit + k - 1 + p matrices. */
  lemma {:induction false} RaceIsBounded(
    w: World, team: string, k: nat, p: nat, steps: seq<Step>, states: seq<Sys>, i: nat)
    requires IsRun(w, team, k, p, steps, states) && i < |states| && k > 0 && MatricesWithinQuota(w, team)
    ensures states[i].w.env == w.env && Bounded(states[i], team, k, p)
    ensures Limited(w.env, team) ==> Count(states[i].w, team) <= w.env.quotas[team].maxMatrices - 1 + k + p
  {
    if i == 0 {
      assert NamesOfLoaded([]) == {};
      assert Claimed(w, [], team) == TeamMatrices(w.matrices, team);
    } else {
      RaceIsBounded(w, team, k, p, steps, states, i - 1);
      assert Enabled(states[i - 1], steps[i - 1], team, k, p);
      StepKeepsBound(states[i - 1], steps[i - 1], team, k, p);
      hide IsRun, TeamMatrices, NamesOfLoaded;
      SubsetSize(TeamMatrices(states[i].w.matrices, team), Claimed(states[i].w, states[i].loaded, team));
    }
  }

  // ---- The bound is reached ----

  const TEAM := "team"

  function NameOf(i: nat): Name {
    seq(i, _ => 'a')
  }

  /** The names lo to lo + c - 1. */
  function NameSet(lo: nat, c: nat): set<Name> {
    set i: nat | lo <= i < lo + c :: NameOf(i)
  }

  function NameBag(lo: nat, f: nat): multiset<Name> {
    if f == 0 then multiset{} else NameBag(lo, f - 1) + multiset{NameOf(lo + f - 1)}
  }

  lemma NotInNameSet(lo: nat, c: nat, i: nat)
    requires i < lo || i >= lo + c
    ensures NameOf(i) !in NameSet(lo, c)
  {
    forall j: nat | lo <= j < lo + c
      ensures NameOf(j) != NameOf(i)
    {
      assert |NameOf(i)| == i && |NameOf(j)| == j;
    }
  }

  lemma NameSetGrows(lo: nat, c: nat)
    ensures NameSet(lo, c + 1) == NameSet(lo, c) + {NameOf(lo + c)}
    ensures lo > 0 ==> NameSet(lo - 1, c + 1) == NameSet(lo, c) + {NameOf(lo - 1)}
  {
    hide NameOf;
  }

  lemma {:induction false} NameSetSize(lo: nat, c: nat)
    ensures |NameSet(lo, c)| == c
  {
    if c == 0 {
      assert NameSet(lo, 0) == {};
    } else {
      NameSetSize(lo, c - 1);
      NameSetGrows(lo, c - 1);
      NotInNameSet(lo, c - 1, lo + c - 1);
      hide NameSet, NameOf;
    }
  }

  lemma {:induction false} NameBagSize(lo: nat, f: nat)
    ensures |NameBag(lo, f)| == f
    ensures f > 0 ==> NameBag(lo, f) == multiset{NameOf(lo)} + NameBag(lo + 1, f - 1)
    decreases f
  {
    if f > 0 {
      NameBagSize(lo, f - 1);
      NameBagSize(lo + 1, f - 1);
    }
  }

  function LimitEnv(limit: nat): Env {
    Env(true, map[TEAM := Quota(0, Unset, Unset, Unset, 0, limit, 0)], map[])
  }

  function NewWorld(limit: nat): World {
    World(LimitEnv(limit), map[], map[], map[], map[], {}, 0, 0, 0)
  }

  /** The records 0 to lo - 1 were loaded and then dropped. */
  predicate FirstLoaded(loaded: seq<Loaded>, lo: nat) {
    |loaded| == lo && forall i :: 0 <= i < lo ==> loaded[i].name == NameOf(i) && loaded[i].record.team == TEAM
  }

  predicate Present(w: World, lo: nat, c: nat) {
    w.matrices.Keys == NameSet(lo, c) && forall n :: n in w.matrices ==> w.matrices[n].team == TEAM
  }

  /** The first `lo` matrices are loaded and dropped, the next `c` are there, the next `f` are in flight. */
  predicate Phase(s: Sys, limit: nat, lo: nat, c: nat, f: nat) {
    && s.w.env == LimitEnv(limit) && Present(s.w, lo, c)
    && s.inFlight == NameBag(lo + c, f) && FirstLoaded(s.loaded, lo)
  }

  lemma PresentCount(w: World, lo: nat, c: nat)
    requires Present(w, lo, c)
    ensures TeamMatrices(w.matrices, TEAM) == NameSet(lo, c) && Count(w, TEAM) == c
  {
    NameSetSize(lo, c);
    hide NameSet;
    assert TeamMatrices(w.matrices, TEAM) == w.matrices.Keys;
  }

  ghost predicate Reachable(limit: nat, k: nat, p: nat, s: Sys) {
    exists steps: seq<Step>, states: seq<Sys> ::
      IsRun(NewWorld(limit), TEAM, k, p, steps, states) && states[|steps|] == s
  }

  lemma ReachStart(limit: nat, k: nat, p: nat) returns (s: Sys)
    ensures Reachable(limit, k, p, s) && Phase(s, limit, 0, 0, 0)
  {
    s := Sys(NewWorld(limit), multiset{}, []);
    assert NameSet(0, 0) == {};
    var steps: seq<Step>, states := [], [s];
    assert IsRun(NewWorld(limit), TEAM, k, p, steps, states) && states[|steps|] == s;
  }

  lemma ReachNext(limit: nat, k: nat, p: nat, s: Sys, step: Step)
    requires Reachable(limit, k, p, s) && Enabled(s, step, TEAM, k, p)
    ensures Reachable(limit, k, p, ApplyStep(s, step, TEAM, k, p))
  {
    hide Enabled, ApplyStep, NewWorld;
    var steps: seq<Step>, states: seq<Sys> :|
      IsRun(NewWorld(limit), TEAM, k, p, steps, states) && states[|steps|] == s;
    var steps', states' := steps + [step], states + [ApplyStep(s, step, TEAM, k, p)];
    assert IsRun(NewWorld(limit), TEAM, k, p, steps', states') && states'[|steps'|] == ApplyStep(s, step, TEAM, k, p);
  }

  lemma BeginEnabled(s: Sys, limit: nat, k: nat, p: nat, n: Name)
    requires s.w.env == LimitEnv(limit) && Count(s.w, TEAM) < limit && |s.inFlight| < k && n !in s.w.matrices
    ensures Enabled(s, Begin(n, []), TEAM, k, p)
    ensures ApplyStep(s, Begin(n, []), TEAM, k, p) == s.(inFlight := s.inFlight + multiset{n})
  {
    hide Total, TeamMatrices, TeamSessions, Apply;
  }

  lemma NotPresent(w: World, lo: nat, c: nat, i: nat)
    requires Present(w, lo, c) && i >= lo + c
    ensures NameOf(i) !in w.matrices
  {
    NotInNameSet(lo, c, i);
    hide NameSet, NameOf;
  }

  lemma NameBagNext(lo: nat, f: nat)
    ensures NameBag(lo, f + 1) == NameBag(lo, f) + multiset{NameOf(lo + f)}
  {
  }

  /** Below the limit another creation can begin. */
  lemma PhaseBegin(s: Sys, limit: nat, k: nat, p: nat, lo: nat, c: nat, f: nat) returns (s': Sys)
    requires Reachable(limit, k, p, s) && Phase(s, limit, lo, c, f) && c < limit && f < k
    ensures Reachable(limit, k, p, s') && Phase(s', limit, lo, c, f + 1)
  {
    hide NameSet, NameBag, NameOf, Count, TeamMatrices, Reachable, Enabled, ApplyStep, LimitEnv, FirstLoaded, Present;
    PresentCount(s.w, lo, c);
    NameBagSize(lo + c, f);
    NotPresent(s.w, lo, c, lo + c + f);
    NameBagNext(lo + c, f);
    var step := Begin(NameOf(lo + c + f), []);
    BeginEnabled(s, limit, k, p, step.matrix);
    ReachNext(limit, k, p, s, step);
    s' := ApplyStep(s, step, TEAM, k, p);
  }

  lemma PresentSave(w: World, n: Name, mx: Matrix, lo: nat, c: nat, lo': nat)
    requires Present(w, lo, c) && mx.team == TEAM && NameSet(lo', c + 1) == NameSet(lo, c) + {n}
    ensures Present(Stored(w, n, mx), lo', c + 1)
  {
    hide NameSet;
  }

  lemma CommitEnabled(s: Sys, k: nat, p: nat, n: Name)
    requires n in s.inFlight
    ensures Enabled(s, Commit(n, []), TEAM, k, p)
    ensures ApplyStep(s, Commit(n, []), TEAM, k, p) ==
            s.(w := Stored(s.w, n, Matrix([], TEAM, Active)), inFlight := s.inFlight - multiset{n})
  {
    hide Apply, CheckQuota;
  }

  /** The oldest creation in flight ends. */
  lemma PhaseCommit(s: Sys, limit: nat, k: nat, p: nat, lo: nat, c: nat, f: nat) returns (s': Sys)
    requires Reachable(limit, k, p, s) && Phase(s, limit, lo, c, f) && f > 0
    ensures Reachable(limit, k, p, s') && Phase(s', limit, lo, c + 1, f - 1)
  {
    hide NameSet, NameBag, NameOf, Reachable, Enabled, ApplyStep, LimitEnv, FirstLoaded, Present;
    NameBagSize(lo + c, f);
    NameSetGrows(lo, c);
    var n := NameOf(lo + c);
    PresentSave(s.w, n, Matrix([], TEAM, Active), lo, c, lo);
    assert multiset{n} + NameBag(lo + c + 1, f - 1) - multiset{n} == NameBag(lo + c + 1, f - 1);
    var step := Commit(n, []);
    CommitEnabled(s, k, p, n);
    ReachNext(limit, k, p, s, step);
    s' := ApplyStep(s, step, TEAM, k, p);
  }

  lemma PresentDrop(w: World, n: Name, lo: nat)
    requires Present(w, lo, 1) && NameSet(lo, 1) == {n}
    ensures Apply(w, DropMatrix(n)) == w.(matrices := w.matrices - {n}) && Present(Apply(w, DropMatrix(n)), lo + 1, 0)
  {
    assert NameSet(lo + 1, 0) == {};
    hide NameSet;
  }

  lemma FirstLoadedNext(loaded: seq<Loaded>, lo: nat, mx: Matrix)
    requires FirstLoaded(loaded, lo) && mx.team == TEAM
    ensures FirstLoaded(loaded + [Loaded(NameOf(lo), mx)], lo + 1)
  {
    hide NameOf;
  }

  lemma LoadEnabled(s: Sys, k: nat, p: nat, n: Name)
    requires |s.loaded| < p && n in TeamMatrices(s.w.matrices, TEAM)
    ensures Enabled(s, Load(n), TEAM, k, p)
    ensures ApplyStep(s, Load(n), TEAM, k, p) == s.(loaded := s.loaded + [Loaded(n, Switched(s.w.matrices[n]))])
  {
    hide Apply, CheckQuota;
  }

  lemma DropEnabled(s: Sys, k: nat, p: nat, n: Name)
    ensures Enabled(s, Elsewhere(DropMatrix(n)), TEAM, k, p)
    ensures ApplyStep(s, Elsewhere(DropMatrix(n)), TEAM, k, p) == s.(w := Apply(s.w, DropMatrix(n)))
  {
    hide Apply, CheckQuota;
  }

  /** The only matrix is loaded by a stop, and then dropped. */
  lemma PhaseLoadAndDrop(s: Sys, limit: nat, k: nat, p: nat, lo: nat) returns (s': Sys)
    requires Reachable(limit, k, p, s) && Phase(s, limit, lo, 1, 0) && lo < p
    ensures Reachable(limit, k, p, s') && Phase(s', limit, lo + 1, 0, 0)
  {
    hide Reachable, TeamMatrices, LimitEnv, Apply, NameOf, Enabled, ApplyStep;
    var n := NameOf(lo);
    assert NameSet(lo, 1) == {n};
    hide NameSet;
    PresentCount(s.w, lo, 1);
    assert |s.loaded| == lo && n in s.w.matrices && s.w.matrices[n].team == TEAM;
    hide FirstLoaded, Present;
    FirstLoadedNext(s.loaded, lo, Switched(s.w.matrices[n]));
    PresentDrop(s.w, n, lo);
    LoadEnabled(s, k, p, n);
    ReachNext(limit, k, p, s, Load(n));
    var s1 := ApplyStep(s, Load(n), TEAM, k, p);
    DropEnabled(s1, k, p, n);
    ReachNext(limit, k, p, s1, Elsewhere(DropMatrix(n)));
    s' := ApplyStep(s1, Elsewhere(DropMatrix(n)), TEAM, k, p);
  }

  lemma FirstLoadedLess(loaded: seq<Loaded>, lo: nat)
    requires FirstLoaded(loaded, lo) && lo > 0
    ensures FirstLoaded(Without(loaded, lo - 1), lo - 1)
    ensures loaded[lo - 1].name == NameOf(lo - 1) && loaded[lo - 1].record.team == TEAM
  {
    hide NameOf;
    assert loaded[..lo - 1] + loaded[lo..] == loaded[..lo - 1];
  }

  lemma SaveBackEnabled(s: Sys, k: nat, p: nat, i: nat)
    requires i < |s.loaded|
    ensures Enabled(s, SaveBack(i), TEAM, k, p)
    ensures ApplyStep(s, SaveBack(i), TEAM, k, p) ==
            s.(w := Stored(s.w, s.loaded[i].name, s.loaded[i].record), loaded := Without(s.loaded, i))
  {
    hide Apply, CheckQuota;
  }

  /** A stop saves the record it had loaded. */
  lemma PhaseSaveBack(s: Sys, limit: nat, k: nat, p: nat, lo: nat, c: nat) returns (s': Sys)
    requires Reachable(limit, k, p, s) && Phase(s, limit, lo, c, 0) && lo > 0
    ensures Reachable(limit, k, p, s') && Phase(s', limit, lo - 1, c + 1, 0)
  {
    hide NameSet, NameOf, Reachable, LimitEnv, Present, Enabled, ApplyStep;
    assert |s.loaded| == lo;
    FirstLoadedLess(s.loaded, lo);
    NameSetGrows(lo, c);
    hide FirstLoaded;
    PresentSave(s.w, s.loaded[lo - 1].name, s.loaded[lo - 1].record, lo, c, lo - 1);
    var step := SaveBack(lo - 1);
    SaveBackEnabled(s, k, p, lo - 1);
    ReachNext(limit, k, p, s, step);
    s' := ApplyStep(s, step, TEAM, k, p);
  }

  /** First `lo` matrices are created, loaded by a stop and dropped, one after the other. */
  lemma {:induction false} ReachDropped(limit: nat, k: nat, p: nat, lo: nat) returns (s: Sys)
    requires limit > 0 && k > 0 && lo <= p
    ensures Reachable(limit, k, p, s) && Phase(s, limit, lo, 0, 0)
  {
    hide Reachable, Phase;
    if lo == 0 {
      s := ReachStart(limit, k, p);
    } else {
      s := ReachDropped(limit, k, p, lo - 1);
      s := PhaseBegin(s, limit, k, p, lo - 1, 0, 0);
      s := PhaseCommit(s, limit, k, p, lo - 1, 0, 1);
      s := PhaseLoadAndDrop(s, limit, k, p, lo - 1);
    }
  }

  /** Then `c` are created one after the other, and `f` more begin together. */
  lemma {:induction false} ReachBegun(limit: nat, k: nat, p: nat, c: nat, f: nat) returns (s: Sys)
    requires c < limit && k > 0 && f <= k
    ensures Reachable(limit, k, p, s) && Phase(s, limit, p, c, f)
    decreases c, f
  {
    hide Reachable, Phase;
    if c == 0 && f == 0 {
      s := ReachDropped(limit, k, p, p);
    } else if f == 0 {
      s := ReachBegun(limit, k, p, c - 1, 1);
      s := PhaseCommit(s, limit, k, p, p, c - 1, 1);
    } else {
      s := ReachBegun(limit, k, p, c, f - 1);
      s := PhaseBegin(s, limit, k, p, p, c, f - 1);
    }
  }

  /** Then all of them end. */
  lemma {:induction false} ReachCommitted(limit: nat, k: nat, p: nat, j: nat) returns (s: Sys)
    requires limit > 0 && k > 0 && j <= k
    ensures Reachable(limit, k, p, s) && Phase(s, limit, p, limit - 1 + j, k - j)
  {
    hide Reachable, Phase;
    if j == 0 {
      s := ReachBegun(limit, k, p, limit - 1, k);
    } else {
      s := ReachCommitted(limit, k, p, j - 1);
      s := PhaseCommit(s, limit, k, p, p, limit - 1 + j - 1, k - j + 1);
    }
  }

  /** And at last the stops save what they had loaded. */
  lemma {:induction false} ReachSavedBack(limit: nat, k: nat, p: nat, j: nat) returns (s: Sys)
    requires limit > 0 && k > 0 && j <= p
    ensures Reachable(limit, k, p, s) && Phase(s, limit, p - j, limit - 1 + k + j, 0)
  {
    hide Reachable, Phase;
    if j == 0 {
      s := ReachCommitted(limit, k, p, k);
    } else {
      s := ReachSavedBack(limit, k, p, j - 1);
      s := PhaseSaveBack(s, limit, k, p, p - j + 1, limit - 1 + k + j - 1);
    }
  }

  /** Whatever the limit, k and p, some run ends with limit + k - 1 + p matrices. */
  lemma RaceBoundIsReached(limit: nat, k: nat, p: nat) returns (steps: seq<Step>, states: seq<Sys>)
    requires limit > 0 && k > 0
    ensures IsRun(NewWorld(limit), TEAM, k, p, steps, states)
    ensures Limited(NewWorld(limit).env, TEAM) && NewWorld(limit).env.quotas[TEAM].maxMatrices == limit
    ensures Count(states[|steps|].w, TEAM) == limit - 1 + k + p
  {
    var s := ReachSavedBack(limit, k, p, p);
    PresentCount(s.w, 0, limit - 1 + k + p);
    hide IsRun, Phase;
    steps, states :| IsRun(NewWorld(limit), TEAM, k, p, steps, states) && states[|steps|] == s;
  }
}
