/** The warm pool as a protocol: claimers, releasers, the runtime and one warmer goroutine
    interleave freely between critical sections.

    Claimers are interchangeable, so the ones in flight are kept as counters and as sets of
    the container ids they carry. Ids are handed out fresh by the runtime, callers release
    what they hold, and Warm and Drain calls do not overlap. */
module PoolProtocol {
  import opened Wrappers
  import opened PoolCore

  /** Progress of one createWarmContainer call. */
  datatype Making = Asked | Made(id: ContainerId) | Started(id: ContainerId) | Counted(id: ContainerId) | Failed

  /** Where the warmer goroutine stands: not running, parked on its channel,
      at the head of fillPool's loop, or inside createWarmContainer. */
  datatype Warmer = Off | Parked | Checking | Building(making: Making)

  datatype Sys = Sys(
    core: Core,
    warmer: Warmer,
    cancelled: bool,
    notifying: nat,              // claimers between unlock and notify
    asking: nat,                 // on-demand claimers waiting for runtime.Create
    made: set<ContainerId>,      // on-demand: created, not started
    started: set<ContainerId>,   // on-demand: started, not counted
    counted: set<ContainerId>,   // on-demand: counted, not yet in use
    held: set<ContainerId>,      // claimed and not released
    handed: set<ContainerId>,    // given to runtime.Destroy by Release or Drain
    scrapped: set<ContainerId>,  // given to runtime.Destroy because Start failed
    live: set<ContainerId>)      // what the runtime really runs

  datatype Step =
    | WarmStart | Cancel | WarmerExit | Wake | FillCheck | FillAbort
    | WarmerCreate(id: ContainerId) | WarmerCreateFails | WarmerStart | WarmerStartFails | WarmerCount | WarmerPlace
    | ClaimHit | ClaimMiss | Notify
    | DemandCreate(id: ContainerId) | DemandCreateFails | DemandStart(id: ContainerId)
    | DemandStartFails(id: ContainerId) | DemandCount(id: ContainerId) | DemandTake(id: ContainerId)
    | Release(id: ContainerId) | Drain | DestroyDone(id: ContainerId)

  function Elems(s: seq<ContainerId>): set<ContainerId> {
    set x | x in s
  }

  function WarmerIds(w: Warmer): set<ContainerId> {
    if w.Building? && (w.making.Made? || w.making.Started? || w.making.Counted?) then {w.making.id} else {}
  }

  /** Somebody is still responsible for the container. */
  predicate Tracked(s: Sys, id: ContainerId) {
    || id in s.core.ready || id in s.held
    || id in s.made || id in s.started || id in s.counted
    || id in WarmerIds(s.warmer)
  }

  /** The runtime has produced this id before. */
  predicate Known(s: Sys, id: ContainerId) {
    Tracked(s, id) || id in s.handed || id in s.scrapped
  }

  predicate Enabled(s: Sys, step: Step) {
    match step
    case WarmStart => s.warmer.Off?
    case Cancel => true
    case WarmerExit => s.cancelled && s.warmer.Parked?
    case Wake => s.warmer.Parked? && s.core.token
    case FillCheck => s.warmer.Checking?
    case FillAbort => s.cancelled && s.warmer.Checking?
    case WarmerCreate(id) => s.warmer == Building(Asked) && !Known(s, id)
    case WarmerCreateFails => s.warmer == Building(Asked)
    case WarmerStart => s.warmer.Building? && s.warmer.making.Made?
    case WarmerStartFails => s.warmer.Building? && s.warmer.making.Made?
    case WarmerCount => s.warmer.Building? && s.warmer.making.Started?
    case WarmerPlace => s.warmer.Building? && (s.warmer.making.Counted? || s.warmer.making.Failed?)
    case ClaimHit => |s.core.ready| > 0
    case ClaimMiss => |s.core.ready| == 0
    case Notify => s.notifying > 0
    case DemandCreate(id) => s.asking > 0 && !Known(s, id)
    case DemandCreateFails => s.asking > 0
    case DemandStart(id) => id in s.made
    case DemandStartFails(id) => id in s.made
    case DemandCount(id) => id in s.started
    case DemandTake(id) => id in s.counted
    case Release(id) => id in s.held
    case Drain => s.warmer.Off?
    case DestroyDone(id) => id in s.handed + s.scrapped
  }

  function AfterClaimHit(s: Sys): Sys
    requires |s.core.ready| > 0
  {
    var (c, id) := ClaimSection(s.core);
    s.(core := c, held := s.held + {id.value}, notifying := s.notifying + 1)
  }

  function AfterRelease(s: Sys, id: ContainerId): Sys {
    var (c, kept) := ReleaseSection(s.core, id);
    var s1 := s.(core := c, held := s.held - {id});
    if kept then s1 else s1.(handed := s.handed + {id})
  }

  function AfterDrain(s: Sys): Sys {
    var (c, ids) := DrainSection(s.core);
    s.(core := c, handed := s.handed + Elems(ids))
  }

  function Apply(s: Sys, step: Step): Sys
    requires Enabled(s, step)
  {
    match step
    case WarmStart => s.(warmer := Checking, cancelled := false)
    case Cancel => s.(cancelled := true)
    case WarmerExit => s.(warmer := Off)
    case Wake => s.(core := s.core.(token := false), warmer := Checking)
    case FillCheck =>
      var (c, begun) := FillSection(s.core);
      s.(core := c, warmer := if begun then Building(Asked) else Parked)
    case FillAbort => s.(warmer := Parked)
    case WarmerCreate(id) => s.(warmer := Building(Made(id)), live := s.live + {id})
    case WarmerCreateFails => s.(warmer := Building(Failed))
    case WarmerStart => s.(warmer := Building(Started(s.warmer.making.id)))
    case WarmerStartFails => s.(warmer := Building(Failed), scrapped := s.scrapped + {s.warmer.making.id})
    case WarmerCount => s.(core := CountSection(s.core), warmer := Building(Counted(s.warmer.making.id)))
    case WarmerPlace =>
      var made := if s.warmer.making.Counted? then Some(s.warmer.making.id) else None;
      s.(core := PlaceSection(s.core, made), warmer := Checking)
    case ClaimHit => AfterClaimHit(s)
    case ClaimMiss => s.(asking := s.asking + 1)
    case Notify => s.(core := s.core.(token := true), notifying := s.notifying - 1)
    case DemandCreate(id) => s.(asking := s.asking - 1, made := s.made + {id}, live := s.live + {id})
    case DemandCreateFails => s.(asking := s.asking - 1)
    case DemandStart(id) => s.(made := s.made - {id}, started := s.started + {id})
    case DemandStartFails(id) => s.(made := s.made - {id}, scrapped := s.scrapped + {id})
    case DemandCount(id) =>
      s.(core := CountSection(s.core), started := s.started - {id}, counted := s.counted + {id})
    case DemandTake(id) =>
      s.(core := OnDemandSection(s.core), counted := s.counted - {id}, held := s.held + {id})
    case Release(id) => AfterRelease(s, id)
    case Drain => AfterDrain(s)
    case DestroyDone(id) => s.(live := s.live - {id})
  }

  function Initial(minReady: nat, maxSize: nat): Sys {
    Sys(Core(minReady, maxSize, [], 0, 0, 0, false), Off, false, 0, 0, {}, {}, {}, {}, {}, {}, {})
  }

  /** `states` is an execution of `steps` from a freshly configured pool. */
  ghost predicate IsRun(minReady: nat, maxSize: nat, steps: seq<Step>, states: seq<Sys>) {
    && |states| == |steps| + 1
    && states[0] == Initial(minReady, maxSize)
    && forall i :: 0 <= i < |steps| ==> Enabled(states[i], steps[i]) && states[i + 1] == Apply(states[i], steps[i])
  }

  predicate NoDuplicates(s: seq<ContainerId>) {
    forall i, j :: 0 <= i < j < |s| ==> s[i] != s[j]
  }

  function One(b: bool): nat {
    if b then 1 else 0
  }

  /** In how many hands a container is. */
  function Owners(s: Sys, id: ContainerId): nat {
    One(id in s.core.ready) + One(id in s.held) + One(id in s.made) + One(id in s.started) + One(id in s.counted)
    + One(id in WarmerIds(s.warmer)) + One(id in s.handed) + One(id in s.scrapped)
  }

  /** No container has two owners. */
  ghost predicate Exclusive(s: Sys) {
    && NoDuplicates(s.core.ready)
    && forall id: ContainerId :: Owners(s, id) <= 1
  }

  /** The counters agree with who owns what. */
  predicate Conserved(s: Sys) {
    && s.core.inUse == |s.held|
    && s.core.creating == (if s.warmer.Building? then 1 else 0)
    && s.core.totalCreated ==
       |s.core.ready| + |s.held| + |s.counted| + |s.handed|
       + (if s.warmer.Building? && s.warmer.making.Counted? then 1 else 0)
  }

  /** Owned containers run; what runs unowned was handed to Destroy. */
  ghost predicate RuntimeAgrees(s: Sys) {
    forall id: ContainerId :: (Tracked(s, id) ==> id in s.live) && (id in s.live ==> Known(s, id))
  }

  /** A parked warmer either has nothing to do or will be woken. */
  predicate NoLostWakeup(s: Sys) {
    s.warmer.Parked? && !s.cancelled ==> Full(s.core) || s.core.token || s.notifying > 0
  }

  predicate WithinCapacity(s: Sys) {
    s.core.maxSize > 0 ==> |s.core.ready| + s.core.creating <= s.core.maxSize + 1
  }

  ghost predicate Inv(s: Sys) {
    Exclusive(s) && Conserved(s) && RuntimeAgrees(s) && NoLostWakeup(s) && WithinCapacity(s)
  }

  lemma {:induction false} ElemsCardinality(s: seq<ContainerId>)
    requires NoDuplicates(s)
    ensures |Elems(s)| == |s|
  {
    if s == [] {
      assert Elems(s) == {};
    } else {
      var init, last := s[..|s| - 1], s[|s| - 1];
      ElemsCardinality(init);
      assert Elems(s) == Elems(init) + {last};
      assert last !in Elems(init);
    }
  }

  /** Releasing never makes room in a pool that had none: this is why Release need not notify. */
  lemma ReleaseNeverReopens(c: Core, id: ContainerId)
    requires c.inUse > 0 && Full(c)
    ensures Full(ReleaseSection(c, id).0)
  {
  }

  lemma ElemsAppend(s: seq<ContainerId>, id: ContainerId)
    ensures Elems(s + [id]) == Elems(s) + {id}
  {
  }

  lemma ElemsPop(s: seq<ContainerId>)
    requires |s| > 0 && NoDuplicates(s)
    ensures Elems(s[..|s| - 1]) == Elems(s) - {s[|s| - 1]} && s[|s| - 1] in Elems(s)
  {
    var init := s[..|s| - 1];
    assert s == init + [s[|s| - 1]];
    ElemsAppend(init, s[|s| - 1]);
    assert s[|s| - 1] !in init;
  }

  // The steps by participant: each group is checked on its own.

  predicate WarmerStep(step: Step) {
    || step.WarmStart? || step.Cancel? || step.WarmerExit? || step.Wake? || step.FillCheck? || step.FillAbort?
    || step.WarmerCreate? || step.WarmerCreateFails? || step.WarmerStart? || step.WarmerStartFails?
    || step.WarmerCount? || step.WarmerPlace?
  }

  predicate DemandStep(step: Step) {
    || step.ClaimMiss? || step.DemandCreate? || step.DemandCreateFails? || step.DemandStart?
    || step.DemandStartFails? || step.DemandCount? || step.DemandTake? || step.DestroyDone? || step.Notify?
  }

  lemma WarmerKeepsExclusive(s: Sys, step: Step)
    requires Exclusive(s) && WarmerStep(step) && Enabled(s, step)
    ensures Exclusive(Apply(s, step))
  {
    var t := Apply(s, step);
    assert step.WarmerPlace? && s.warmer.making.Counted? ==> Owners(s, s.warmer.making.id) <= 1;
    forall id: ContainerId
      ensures Owners(t, id) <= 1
    {
      assert Owners(s, id) <= 1;
    }
  }

  lemma DemandKeepsExclusive(s: Sys, step: Step)
    requires Exclusive(s) && DemandStep(step) && Enabled(s, step)
    ensures Exclusive(Apply(s, step))
  {
    var t := Apply(s, step);
    forall id: ContainerId
      ensures Owners(t, id) <= 1
    {
      assert Owners(s, id) <= 1;
    }
  }

  lemma ClaimHitKeepsExclusive(s: Sys)
    requires Exclusive(s) && |s.core.ready| > 0
    ensures Exclusive(AfterClaimHit(s))
  {
    var t := AfterClaimHit(s);
    ElemsPop(s.core.ready);
    forall id: ContainerId
      ensures Owners(t, id) <= 1
    {
      assert Owners(s, id) <= 1;
      assert (id in t.core.ready <==> id in Elems(t.core.ready)) && (id in s.core.ready <==> id in Elems(s.core.ready));
    }
  }

  lemma ReleaseKeepsExclusive(s: Sys, id: ContainerId)
    requires Exclusive(s) && id in s.held
    ensures Exclusive(AfterRelease(s, id))
  {
    assert Owners(s, id) <= 1;
    forall id': ContainerId
      ensures Owners(AfterRelease(s, id), id') <= 1
    {
      assert Owners(s, id') <= 1;
    }
  }

  lemma DrainKeepsExclusive(s: Sys)
    requires Exclusive(s)
    ensures Exclusive(AfterDrain(s))
  {
    forall id: ContainerId
      ensures Owners(AfterDrain(s), id) <= 1
    {
      assert Owners(s, id) <= 1;
    }
  }

  lemma StepKeepsExclusive(s: Sys, step: Step)
    requires Exclusive(s) && Enabled(s, step)
    ensures Exclusive(Apply(s, step))
  {
    hide Exclusive, AfterClaimHit, AfterRelease, AfterDrain;
    if WarmerStep(step) {
      WarmerKeepsExclusive(s, step);
    } else if DemandStep(step) {
      DemandKeepsExclusive(s, step);
    } else {
      match step
      case Drain => DrainKeepsExclusive(s);
      case ClaimHit => ClaimHitKeepsExclusive(s);
      case Release(id) => ReleaseKeepsExclusive(s, id);
    }
  }

  lemma WarmerKeepsConserved(s: Sys, step: Step)
    requires Conserved(s) && WarmerStep(step) && Enabled(s, step)
    ensures Conserved(Apply(s, step))
  {
  }

  lemma DemandKeepsConserved(s: Sys, step: Step)
    requires Exclusive(s) && Conserved(s) && DemandStep(step) && Enabled(s, step)
    ensures Conserved(Apply(s, step))
  {
    assert step.DemandCount? || step.DemandTake? ==> Owners(s, step.id) <= 1;
  }

  lemma SoleOwner(s: Sys, id: ContainerId)
    requires Exclusive(s)
    ensures id in s.core.ready ==> id !in s.held && id !in s.handed
    ensures id in s.held ==> id !in s.handed
  {
    assert Owners(s, id) <= 1;
  }

  lemma ClaimHitKeepsConserved(s: Sys)
    requires Exclusive(s) && Conserved(s) && |s.core.ready| > 0
    ensures Conserved(AfterClaimHit(s))
  {
    var id := s.core.ready[|s.core.ready| - 1];
    SoleOwner(s, id);
    hide Exclusive, Owners;
    assert |s.held + {id}| == |s.held| + 1;
  }

  lemma ReleaseKeepsConserved(s: Sys, id: ContainerId)
    requires Exclusive(s) && Conserved(s) && id in s.held
    ensures Conserved(AfterRelease(s, id))
  {
    SoleOwner(s, id);
    hide Exclusive, Owners;
    assert |s.held - {id}| == |s.held| - 1;
    assert |s.handed + {id}| == |s.handed| + 1;
    var (c, kept) := ReleaseSection(s.core, id);
    assert c.inUse == s.core.inUse - 1 && |c.ready| == |s.core.ready| + One(kept);
  }

  lemma DrainKeepsConserved(s: Sys)
    requires Exclusive(s) && Conserved(s)
    ensures Conserved(AfterDrain(s))
  {
    var ids := Elems(s.core.ready);
    ElemsCardinality(s.core.ready);
    forall id | id in ids
      ensures id !in s.handed
    {
      SoleOwner(s, id);
    }
    assert ids !! s.handed;
  }

  lemma StepKeepsConserved(s: Sys, step: Step)
    requires Exclusive(s) && Conserved(s) && Enabled(s, step)
    ensures Conserved(Apply(s, step))
  {
    hide Exclusive, Conserved, AfterClaimHit, AfterRelease, AfterDrain;
    if WarmerStep(step) {
      WarmerKeepsConserved(s, step);
    } else if DemandStep(step) {
      DemandKeepsConserved(s, step);
    } else {
      match step
      case Drain => DrainKeepsConserved(s);
      case ClaimHit => ClaimHitKeepsConserved(s);
      case Release(id) => ReleaseKeepsConserved(s, id);
    }
  }

  lemma StepKeepsRuntime(s: Sys, step: Step)
    requires Exclusive(s) && RuntimeAgrees(s) && Enabled(s, step)
    ensures RuntimeAgrees(Apply(s, step))
  {
    var t := Apply(s, step);
    forall id: ContainerId
      ensures (Tracked(t, id) ==> id in t.live) && (id in t.live ==> Known(t, id))
    {
      assert Owners(s, id) <= 1;
      assert (Tracked(s, id) ==> id in s.live) && (id in s.live ==> Known(s, id));
    }
  }

  lemma StepKeepsWakeup(s: Sys, step: Step)
    requires Conserved(s) && NoLostWakeup(s) && Enabled(s, step)
    ensures NoLostWakeup(Apply(s, step))
  {
    if step.Release? && Full(s.core) {
      assert s.held != {};
      ReleaseNeverReopens(s.core, step.id);
    }
  }

  lemma StepKeepsCapacity(s: Sys, step: Step)
    requires Conserved(s) && WithinCapacity(s) && Enabled(s, step)
    ensures WithinCapacity(Apply(s, step))
  {
  }

  /** Every step of every participant keeps the whole invariant. */
  lemma StepKeeps(s: Sys, step: Step)
    requires Inv(s) && Enabled(s, step)
    ensures Inv(Apply(s, step))
  {
    StepKeepsExclusive(s, step);
    StepKeepsConserved(s, step);
    StepKeepsRuntime(s, step);
    StepKeepsWakeup(s, step);
    StepKeepsCapacity(s, step);
  }

  /** All of it, in every state of every interleaving. */
  lemma {:induction false} EveryRunKeepsInv(minReady: nat, maxSize: nat, steps: seq<Step>, states: seq<Sys>, i: nat)
    requires IsRun(minReady, maxSize, steps, states) && i < |states|
    ensures Inv(states[i])
  {
    if i > 0 {
      EveryRunKeepsInv(minReady, maxSize, steps, states, i - 1);
      StepKeeps(states[i - 1], steps[i - 1]);
    }
  }

  /** A live warmer that is short of containers and has room is never stuck: it can wake now,
      or right after a claimer that stands before its notify. */
  lemma ShortfallWakesWarmer(minReady: nat, maxSize: nat, steps: seq<Step>, states: seq<Sys>, i: nat)
    requires IsRun(minReady, maxSize, steps, states) && i < |states|
    requires states[i].warmer.Parked? && !states[i].cancelled && !Full(states[i].core)
    ensures || Enabled(states[i], Wake)
            || (Enabled(states[i], Notify) && Enabled(Apply(states[i], Notify), Wake))
  {
    EveryRunKeepsInv(minReady, maxSize, steps, states, i);
  }

  /** The last claimed container comes back while a fill for the last free place is under way. */
  predicate Overshoots(c: Core, step: Step) {
    step.Release? && c.creating == 1 && |c.ready| == c.maxSize - 1 && c.inUse == 1
  }

  /** The ready containers plus the one under creation are within the maximum. */
  predicate PlannedWithinMaximum(c: Core) {
    |c.ready| + c.creating <= c.maxSize
  }

  lemma OtherStepKeepsPlanned(s: Sys, step: Step)
    requires Conserved(s) && Enabled(s, step) && !step.Release?
    requires s.core.maxSize > 0 && PlannedWithinMaximum(s.core)
    ensures PlannedWithinMaximum(Apply(s, step).core)
  {
  }

  lemma StepKeepsSettings(s: Sys, step: Step)
    requires Enabled(s, step)
    ensures Apply(s, step).core.maxSize == s.core.maxSize && Apply(s, step).core.minReady == s.core.minReady
  {
    hide Known;
  }

  lemma ReleaseWithinMaximum(s: Sys, id: ContainerId)
    requires Conserved(s) && id in s.held && s.core.maxSize > 0 && PlannedWithinMaximum(s.core)
    ensures PlannedWithinMaximum(AfterRelease(s, id).core) <==> !Overshoots(s.core, Release(id))
  {
    assert s.held != {};
  }

  /** That is the only way for ready plus creating to get over the maximum, and it always leads over it. */
  lemma StepExceedsIffOvershoots(s: Sys, step: Step)
    requires Conserved(s) && Enabled(s, step) && s.core.maxSize > 0 && PlannedWithinMaximum(s.core)
    ensures PlannedWithinMaximum(Apply(s, step).core) <==> !Overshoots(s.core, step)
  {
    hide Conserved, PlannedWithinMaximum, AfterRelease;
    if step.Release? {
      ReleaseWithinMaximum(s, step.id);
    } else {
      OtherStepKeepsPlanned(s, step);
    }
  }

  /** No step before the state `i` overshot. */
  predicate NoOvershoot(steps: seq<Step>, states: seq<Sys>, i: nat)
    requires i < |states| == |steps| + 1
  {
    forall k :: 0 <= k < i ==> !Overshoots(states[k].core, steps[k])
  }

  /** Every state up to `i` is within the maximum. */
  predicate AllPlannedWithinMaximum(states: seq<Sys>, i: nat)
    requires i < |states|
  {
    forall k :: 0 <= k <= i ==> PlannedWithinMaximum(states[k].core)
  }

  lemma {:induction false} RunKeepsSettings(minReady: nat, maxSize: nat, steps: seq<Step>, states: seq<Sys>, i: nat)
    requires IsRun(minReady, maxSize, steps, states) && i < |states|
    ensures states[i].core.maxSize == maxSize && states[i].core.minReady == minReady
  {
    if i > 0 {
      RunKeepsSettings(minReady, maxSize, steps, states, i - 1);
      StepKeepsSettings(states[i - 1], steps[i - 1]);
    }
  }

  /** StepExceedsIffOvershoots at one step of a run. */
  lemma RunStepExceedsIffOvershoots(minReady: nat, maxSize: nat, steps: seq<Step>, states: seq<Sys>, i: nat)
    requires IsRun(minReady, maxSize, steps, states) && i < |steps| && maxSize > 0 && PlannedWithinMaximum(states[i].core)
    ensures PlannedWithinMaximum(states[i + 1].core) <==> !Overshoots(states[i].core, steps[i])
  {
    RunKeepsSettings(minReady, maxSize, steps, states, i);
    EveryRunKeepsInv(minReady, maxSize, steps, states, i);
    hide Overshoots, PlannedWithinMaximum, Apply, Enabled, Exclusive, RuntimeAgrees, Conserved, NoLostWakeup, WithinCapacity;
    StepExceedsIffOvershoots(states[i], steps[i]);
  }

  /** Ready plus creating is within the maximum throughout a run if and only if no release in it overshoots. */
  lemma {:induction false} PlannedIffNoOvershoot(minReady: nat, maxSize: nat, steps: seq<Step>, states: seq<Sys>, i: nat)
    requires IsRun(minReady, maxSize, steps, states) && i < |states| && maxSize > 0
    ensures AllPlannedWithinMaximum(states, i) <==> NoOvershoot(steps, states, i)
  {
    if i == 0 {
      assert PlannedWithinMaximum(states[0].core);
    } else {
      PlannedIffNoOvershoot(minReady, maxSize, steps, states, i - 1);
      if PlannedWithinMaximum(states[i - 1].core) {
        RunStepExceedsIffOvershoots(minReady, maxSize, steps, states, i - 1);
      }
      hide IsRun, Overshoots, PlannedWithinMaximum;
    }
  }

  /** In particular it is on every run in which no container comes back during a fill. */
  lemma CapacityWithoutRace(minReady: nat, maxSize: nat, steps: seq<Step>, states: seq<Sys>, i: nat)
    requires IsRun(minReady, maxSize, steps, states) && i < |states| && maxSize > 0
    requires forall k :: 0 <= k < |steps| && steps[k].Release? ==> states[k].core.creating == 0
    ensures |states[i].core.ready| + states[i].core.creating <= maxSize
  {
    PlannedIffNoOvershoot(minReady, maxSize, steps, states, i);
    RunKeepsSettings(minReady, maxSize, steps, states, i);
    hide IsRun;
    assert NoOvershoot(steps, states, i);
    assert PlannedWithinMaximum(states[i].core);
  }

  // ---- The bound on the ready containers alone ----

  /** A run and the state it ends in, extended one step at a time. */
  lemma ExtendRun(minReady: nat, maxSize: nat, steps: seq<Step>, states: seq<Sys>, step: Step)
    returns (steps': seq<Step>, states': seq<Sys>)
    requires IsRun(minReady, maxSize, steps, states) && Enabled(states[|steps|], step)
    ensures IsRun(minReady, maxSize, steps', states')
    ensures |steps'| == |steps| + 1 && states'[|steps'|] == Apply(states[|steps|], step)
  {
    steps', states' := steps + [step], states + [Apply(states[|steps|], step)];
  }

  /** Callers find the pool empty, and then the warmer starts. */
  function Waiting(minReady: nat, maxSize: nat, callers: nat): Sys {
    Initial(minReady, maxSize).(asking := callers)
  }

  lemma {:induction false} WaitingRun(minReady: nat, maxSize: nat, callers: nat) returns (steps: seq<Step>, states: seq<Sys>)
    ensures IsRun(minReady, maxSize, steps, states) && states[|steps|] == Waiting(minReady, maxSize, callers)
  {
    if callers == 0 {
      steps, states := [], [Initial(minReady, maxSize)];
    } else {
      steps, states := WaitingRun(minReady, maxSize, callers - 1);
      steps, states := ExtendRun(minReady, maxSize, steps, states, ClaimMiss);
    }
  }

  /** The warmer has created container 0 and not placed it; meanwhile `n` of `maxSize` callers got the containers
      1 to n on demand and have released them. */
  function Crowded(minReady: nat, maxSize: nat, n: nat): Sys
    requires n <= maxSize
  {
    var ids := seq(n, i => i + 1);
    Waiting(minReady, maxSize, maxSize - n)
    .(core := Core(minReady, maxSize, ids, 1, 0, n + 1, false), warmer := Building(Counted(0)), live := Elems(ids) + {0})
  }

  /** The warmer begins a fill and creates container 0, up to just before it places it. */
  lemma BuildRun(minReady: nat, maxSize: nat) returns (steps: seq<Step>, states: seq<Sys>)
    requires minReady > 0 && maxSize > 0
    ensures IsRun(minReady, maxSize, steps, states) && states[|steps|] == Crowded(minReady, maxSize, 0)
  {
    steps, states := WaitingRun(minReady, maxSize, maxSize);
    hide IsRun;
    steps, states := ExtendRun(minReady, maxSize, steps, states, WarmStart);
    steps, states := ExtendRun(minReady, maxSize, steps, states, FillCheck);
    steps, states := ExtendRun(minReady, maxSize, steps, states, WarmerCreate(0));
    steps, states := ExtendRun(minReady, maxSize, steps, states, WarmerStart);
    steps, states := ExtendRun(minReady, maxSize, steps, states, WarmerCount);
    assert seq(0, i => i + 1) == [];
    assert states[|steps|].live == Crowded(minReady, maxSize, 0).live;
  }

  /** What one caller's on-demand claim and release do. */
  function AfterDemand(s: Sys, id: ContainerId): Sys
    requires s.asking > 0
  {
    s.(core := ReleaseSection(OnDemandSection(CountSection(s.core)), id).0, asking := s.asking - 1, live := s.live + {id})
  }

  /** A caller gets a container on demand. */
  lemma DemandRun(minReady: nat, maxSize: nat, steps: seq<Step>, states: seq<Sys>, id: ContainerId)
    returns (steps': seq<Step>, states': seq<Sys>)
    requires IsRun(minReady, maxSize, steps, states)
    requires states[|steps|].asking > 0 && !Known(states[|steps|], id)
    ensures IsRun(minReady, maxSize, steps', states')
    ensures var s := states[|steps|];
            states'[|steps'|] == s.(core := OnDemandSection(CountSection(s.core)), asking := s.asking - 1,
                                    held := s.held + {id}, live := s.live + {id})
  {
    var s := states[|steps|];
    assert s.made + {id} - {id} == s.made && s.started + {id} - {id} == s.started && s.counted + {id} - {id} == s.counted;
    hide IsRun;
    steps', states' := ExtendRun(minReady, maxSize, steps, states, DemandCreate(id));
    steps', states' := ExtendRun(minReady, maxSize, steps', states', DemandStart(id));
    steps', states' := ExtendRun(minReady, maxSize, steps', states', DemandCount(id));
    steps', states' := ExtendRun(minReady, maxSize, steps', states', DemandTake(id));
  }

  /** A caller gets a container on demand and releases it, and there is room for it. */
  lemma DemandAndReleaseRun(minReady: nat, maxSize: nat, steps: seq<Step>, states: seq<Sys>, id: ContainerId)
    returns (steps': seq<Step>, states': seq<Sys>)
    requires IsRun(minReady, maxSize, steps, states)
    requires var s := states[|steps|];
             s.asking > 0 && !Known(s, id) && s.core.inUse == 0 && |s.core.ready| < s.core.maxSize
    ensures IsRun(minReady, maxSize, steps', states')
    ensures states'[|steps'|] == AfterDemand(states[|steps|], id)
  {
    assert states[|steps|].held + {id} - {id} == states[|steps|].held;
    hide IsRun;
    steps', states' := DemandRun(minReady, maxSize, steps, states, id);
    steps', states' := ExtendRun(minReady, maxSize, steps', states', Release(id));
  }

  lemma CrowdedNext(minReady: nat, maxSize: nat, n: nat)
    requires n < maxSize
    ensures AfterDemand(Crowded(minReady, maxSize, n), n + 1) == Crowded(minReady, maxSize, n + 1)
    ensures !Known(Crowded(minReady, maxSize, n), n + 1)
  {
    var ids, ids' := seq(n, i => i + 1), seq(n + 1, i => i + 1);
    assert ids' == ids + [n + 1];
    ElemsAppend(ids, n + 1);
    assert Elems(ids') + {0} == Elems(ids) + {0} + {n + 1};
    assert n + 1 !in ids;
  }

  lemma {:induction false} CrowdedRun(minReady: nat, maxSize: nat, n: nat) returns (steps: seq<Step>, states: seq<Sys>)
    requires minReady > 0 && n <= maxSize && maxSize > 0
    ensures IsRun(minReady, maxSize, steps, states) && states[|steps|] == Crowded(minReady, maxSize, n)
  {
    hide IsRun;
    if n == 0 {
      steps, states := BuildRun(minReady, maxSize);
    } else {
      steps, states := CrowdedRun(minReady, maxSize, n - 1);
      CrowdedNext(minReady, maxSize, n - 1);
      steps, states := DemandAndReleaseRun(minReady, maxSize, steps, states, n);
    }
  }

  /** The bound of WithinCapacity is reached by every pool that is kept warm: when as many containers as the pool may
      hold are claimed on demand and released during one fill, one more is ready than the maximum allows. */
  lemma CapacityBoundIsTight(minReady: nat, maxSize: nat) returns (steps: seq<Step>, states: seq<Sys>)
    requires minReady > 0 && maxSize > 0
    ensures IsRun(minReady, maxSize, steps, states) && |states[|steps|].core.ready| == maxSize + 1
  {
    steps, states := CrowdedRun(minReady, maxSize, maxSize);
    hide IsRun;
    steps, states := ExtendRun(minReady, maxSize, steps, states, WarmerPlace);
  }

  lemma StepNeverBuilds(s: Sys, step: Step)
    requires Conserved(s) && Enabled(s, step) && !s.warmer.Building? && s.core.minReady == 0
    ensures !Apply(s, step).warmer.Building?
  {
    assert !FillSection(s.core).1;
    hide Known, Conserved, FillSection, ReleaseSection, ClaimSection;
  }

  /** A pool that asks for no ready containers never begins a fill. */
  lemma {:induction false} NeverBuilds(maxSize: nat, steps: seq<Step>, states: seq<Sys>, i: nat)
    requires IsRun(0, maxSize, steps, states) && i < |states|
    ensures !states[i].warmer.Building?
  {
    if i > 0 {
      NeverBuilds(maxSize, steps, states, i - 1);
      RunKeepsSettings(0, maxSize, steps, states, i - 1);
      EveryRunKeepsInv(0, maxSize, steps, states, i - 1);
      hide Exclusive, Conserved, RuntimeAgrees, NoLostWakeup, WithinCapacity, Enabled, Apply;
      StepNeverBuilds(states[i - 1], steps[i - 1]);
    }
  }

  lemma NoFillNoOvershoot(maxSize: nat, steps: seq<Step>, states: seq<Sys>, i: nat)
    requires IsRun(0, maxSize, steps, states) && i < |states| && maxSize > 0
    ensures |states[i].core.ready| <= maxSize
  {
    forall k | 0 <= k <= i
      ensures states[k].core.creating == 0
    {
      NeverBuilds(maxSize, steps, states, k);
      EveryRunKeepsInv(0, maxSize, steps, states, k);
    }
    PlannedIffNoOvershoot(0, maxSize, steps, states, i);
    RunKeepsSettings(0, maxSize, steps, states, i);
    hide IsRun;
    assert NoOvershoot(steps, states, i);
    assert PlannedWithinMaximum(states[i].core);
  }

  /** In every state of every run at most `maxSize` containers are ready. */
  ghost predicate ReadyAlwaysWithin(minReady: nat, maxSize: nat) {
    forall steps: seq<Step>, states: seq<Sys>, i: nat ::
      IsRun(minReady, maxSize, steps, states) && i < |states| ==> |states[i].core.ready| <= maxSize
  }

  /** The exact condition, known when the pool is configured: the maximum bounds the ready containers in every run if
      and only if the pool is not kept warm at all. */
  lemma ReadyAlwaysWithinIffNotWarmed(minReady: nat, maxSize: nat)
    requires maxSize > 0
    ensures ReadyAlwaysWithin(minReady, maxSize) <==> minReady == 0
  {
    if minReady == 0 {
      forall steps: seq<Step>, states: seq<Sys>, i: nat | IsRun(minReady, maxSize, steps, states) && i < |states|
        ensures |states[i].core.ready| <= maxSize
      {
        NoFillNoOvershoot(maxSize, steps, states, i);
      }
    } else {
      var steps, states := CapacityBoundIsTight(minReady, maxSize);
      assert |states| == |steps| + 1;
    }
  }
}
