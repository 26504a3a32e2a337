/** Reconcile while other calls go on. It holds no lock: it lists the containers, and later looks up each name and saves
    a record from what the listing showed. Anything may happen in between. */
module Reconciling {
  import opened Wrappers
  import opened Records
  import opened Quota
  import opened Lifecycle
  import opened LifecycleProofs
  import opened QuotaProofs

  /** One line of a listing. */
  datatype Entry = Entry(id: Id, seen: Container)

  /** `listed` holds what any Reconcile has listed so far, `cleared` the entries whose name was not in the store when it
      was looked up. */
  datatype Sys = Sys(w: World, listed: set<Entry>, cleared: set<Entry>)

  datatype Step = InSection(section: Section) | TakeList | LookUp(entry: Entry) | SaveEntry(entry: Entry)

  function EntriesOf(w: World): set<Entry> {
    set id | id in w.containers :: Entry(id, w.containers[id])
  }

  function RecordOf(e: Entry): Sandbox {
    Sandbox(MapContainerState(e.seen.state), Some(e.id), "", UNKNOWN_RESOURCES)
  }

  /** The save, whatever the store holds by now. */
  function AfterSave(w: World, e: Entry): World {
    Save(w, e.seen.owner, RecordOf(e)).(imported := if e.seen.state == Up then w.imported + 1 else w.imported)
  }

  predicate Enabled(s: Sys, step: Step) {
    match step
    case InSection(section) => !section.DoImport?
    case TakeList => true
    case LookUp(e) => e in s.listed && e.seen.owner != ""
    case SaveEntry(e) => e in s.cleared
  }

  ghost function ApplyStep(s: Sys, step: Step): Sys {
    match step
    case InSection(section) => s.(w := Apply(s.w, section))
    case TakeList => s.(listed := s.listed + EntriesOf(s.w))
    case LookUp(e) => if e.seen.owner in s.w.store then s else s.(cleared := s.cleared + {e})
    case SaveEntry(e) => s.(w := AfterSave(s.w, e))
  }

  ghost predicate IsRun(w: World, steps: seq<Step>, states: seq<Sys>) {
    && |states| == |steps| + 1 && states[0] == Sys(w, {}, {})
    && forall i :: 0 <= i < |steps| ==> Enabled(states[i], steps[i]) && states[i + 1] == ApplyStep(states[i], steps[i])
  }

  /** Without overlap, looking up and saving an entry of the current listing is the import of the serial model. */
  lemma ImportIsLookUpAndSave(w: World, id: Id)
    requires id in w.containers
    ensures var e := Entry(id, w.containers[id]);
            Import(w, id) == if e.seen.owner == "" || e.seen.owner in w.store then w else AfterSave(w, e)
  {
  }

  // ---- What holds even when records and containers disagree ----

  /** A record's container, if it lives, carries the record's name. */
  predicate NamesOwn(w: World, n: Name)
    requires n in w.store
  {
    var id := w.store[n].runtimeId;
    id.Some? ==> id.value < w.nextId && (id.value in w.containers ==> w.containers[id.value].owner == n)
  }

  ghost predicate Base(w: World) {
    && (forall id :: id in w.containers ==> id < w.nextId)
    && (forall n :: n in w.store ==> NamesOwn(w, n))
  }

  /** The entry's id is used, if at all, for the sandbox the entry names. */
  ghost predicate EntryKnown(w: World, e: Entry) {
    && e.id < w.nextId
    && (e.id in w.containers ==> w.containers[e.id].owner == e.seen.owner)
    && KnownOnlyTo(w, e.seen.owner, e.id)
  }

  ghost predicate Snap(s: Sys) {
    && Base(s.w) && s.cleared <= s.listed
    && (forall e :: e in s.listed ==> EntryKnown(s.w, e))
    && (forall a, b :: a in s.listed && b in s.listed && a.id == b.id ==> a.seen.owner == b.seen.owner)
  }

  lemma AgreesHasBase(w: World)
    requires Agrees(w)
    ensures Base(w)
  {
    assert forall n :: n in w.store && RecordAgrees(w, n) ==> NamesOwn(w, n);
  }

  /** At most the record `n` and the container `id` change, and the record only comes to name a new container. */
  ghost predicate Touch(w: World, w': World, n: Name, id: Id) {
    && w.nextId <= w'.nextId
    && (forall m :: m != n ==> (m in w'.store <==> m in w.store))
    && (forall m :: m != n && m in w.store ==> w'.store[m] == w.store[m])
    && (forall c :: c != id ==> (c in w'.containers <==> c in w.containers))
    && (forall c :: c != id && c in w.containers ==> w'.containers[c] == w.containers[c])
    && (id in w'.containers ==>
          || (id in w.containers && w'.containers[id].owner == w.containers[id].owner)
          || (id == w.nextId < w'.nextId && w'.containers[id].owner == n))
    && (n in w'.store && w'.store[n].runtimeId.Some? ==>
          || (w'.store[n].runtimeId == Some(w.nextId) && id == w.nextId < w'.nextId)
          || (n in w.store && w'.store[n].runtimeId == w.store[n].runtimeId))
  }

  lemma TouchKeepsBase(w: World, w': World, n: Name, id: Id)
    requires Base(w) && Touch(w, w', n, id)
    ensures Base(w')
  {
    forall m | m in w'.store
      ensures NamesOwn(w', m)
    {
      assert m in w.store ==> NamesOwn(w, m);
    }
  }

  lemma TouchKeepsEntry(w: World, w': World, n: Name, id: Id, e: Entry)
    requires Base(w) && Touch(w, w', n, id) && EntryKnown(w, e)
    ensures EntryKnown(w', e)
  {
  }

  lemma ProvisionTouch(w: World, n: Name, draft: Sandbox, hasProbe: bool, f: CreateFaults)
    requires draft.runtimeId.None?
    ensures Touch(w, Provision(w, n, draft, hasProbe, f).0, n, w.nextId)
  {
    if f.create {
      ProvisionTouches(w, n, draft, hasProbe, f);
      hide Provision;
    }
  }

  lemma SwitchTouch(w: World, n: Name, ok: bool) returns (id: Id)
    ensures Touch(w, Stop(w, n, ok).0, n, id) && Touch(w, Start(w, n, ok).0, n, id)
  {
    id := if n in w.store && w.store[n].runtimeId.Some? then w.store[n].runtimeId.value else w.nextId;
  }

  lemma DestroyTouch(w: World, n: Name, ok: bool) returns (id: Id)
    ensures Touch(w, Destroy(w, n, ok).0, n, id)
  {
    id := if n in w.store && w.store[n].runtimeId.Some? then w.store[n].runtimeId.value else w.nextId;
  }

  lemma SectionTouch(w: World, s: Section) returns (n: Name, id: Id)
    requires !s.DoImport?
    ensures Touch(w, Apply(w, s), n, id)
  {
    hide Provision, Stop, Start, Destroy, Admission;
    n, id := "", w.nextId;
    match s
    case DoCreate(req, f) =>
      if Admission(w, req) == Ok {
        AdmissionKnowsBlueprint(w, req);
        n := req.name;
        ProvisionTouch(w, n, Draft(w, req), w.env.blueprints[req.blueprint].hasProbe, f);
      }
    case DoRestore(source, name, f) =>
      if source in w.store && name !in w.store {
        n := name;
        ProvisionTouch(w, n, Sandbox(Creating, None, "", w.store[source].resources), false, f.(setup := []));
      }
    case DoStop(name, ok) => n := name; id := SwitchTouch(w, name, ok);
    case DoStart(name, ok) => n := name; id := SwitchTouch(w, name, ok);
    case DoDestroy(name, ok) => n := name; id := DestroyTouch(w, name, ok);
    case _ =>
  }

  lemma SectionKeepsSnap(s: Sys, section: Section)
    requires Snap(s) && !section.DoImport?
    ensures Snap(s.(w := Apply(s.w, section)))
  {
    var n, id := SectionTouch(s.w, section);
    hide Apply, Touch, EntryKnown, Base;
    var w' := Apply(s.w, section);
    TouchKeepsBase(s.w, w', n, id);
    forall e | e in s.listed
      ensures EntryKnown(w', e)
    {
      TouchKeepsEntry(s.w, w', n, id, e);
    }
  }

  lemma ListKeepsSnap(s: Sys)
    requires Snap(s)
    ensures Snap(ApplyStep(s, TakeList))
  {
    forall id | id in s.w.containers
      ensures EntryKnown(s.w, Entry(id, s.w.containers[id]))
    {
      forall m | m in s.w.store && m != s.w.containers[id].owner
        ensures s.w.store[m].runtimeId != Some(id)
      {
        assert NamesOwn(s.w, m);
      }
    }
  }

  lemma SaveKeepsSnap(s: Sys, e: Entry)
    requires Snap(s) && e in s.listed
    ensures Snap(s.(w := AfterSave(s.w, e)))
  {
    var w' := AfterSave(s.w, e);
    assert EntryKnown(s.w, e);
    forall m | m in w'.store
      ensures NamesOwn(w', m)
    {
      assert m != e.seen.owner ==> NamesOwn(s.w, m);
    }
    forall a | a in s.listed
      ensures EntryKnown(w', a)
    {
      assert EntryKnown(s.w, a);
    }
  }

  lemma StepKeepsSnap(s: Sys, step: Step)
    requires Snap(s) && Enabled(s, step)
    ensures Snap(ApplyStep(s, step))
  {
    hide Apply, Base, EntryKnown, EntriesOf, AfterSave;
    match step
    case InSection(section) => SectionKeepsSnap(s, section);
    case TakeList => ListKeepsSnap(s);
    case LookUp(e) =>
    case SaveEntry(e) => SaveKeepsSnap(s, e);
  }

  lemma {:induction false} RunKeepsSnap(w: World, steps: seq<Step>, states: seq<Sys>, i: nat)
    requires IsRun(w, steps, states) && Base(w) && i < |states|
    ensures Snap(states[i])
  {
    if i > 0 {
      RunKeepsSnap(w, steps, states, i - 1);
      hide Snap, ApplyStep, Enabled;
      StepKeepsSnap(states[i - 1], steps[i - 1]);
    }
  }

  // ---- Exactly when a save does no harm ----

  /** The container still is as listed; a listed state that becomes an Error record promises nothing. */
  predicate StillTrue(w: World, e: Entry) {
    e.seen.state == Other || (e.id in w.containers && w.containers[e.id].state == e.seen.state)
  }

  /** No active sandbox has taken the name since it was looked up. */
  predicate NotActive(w: World, n: Name) {
    n !in w.store || !IsActive(w.store[n])
  }

  lemma SavedRecordAgreesIff(w: World, e: Entry)
    requires EntryKnown(w, e)
    ensures RecordAgrees(AfterSave(w, e), e.seen.owner) <==> StillTrue(w, e)
  {
  }

  /** A save keeps records and containers in agreement if and only if its entry is still true. */
  lemma SaveAgreesIff(w: World, e: Entry)
    requires Agrees(w) && EntryKnown(w, e)
    ensures Agrees(AfterSave(w, e)) <==> StillTrue(w, e)
  {
    var w' := AfterSave(w, e);
    SavedRecordAgreesIff(w, e);
    forall m | m in w'.store && m != e.seen.owner
      ensures RecordAgrees(w', m)
    {
      assert RecordAgrees(w, m);
    }
    hide RecordAgrees, StillTrue;
    assert Distinct(w'.store);
  }

  lemma OneMoreOrLess(names: set<Name>, n: Name)
    ensures |names + {n}| == |names| + if n in names then 0 else 1
    ensures |names - {n}| == |names| - if n in names then 1 else 0
  {
    if n in names {
      assert names + {n} == names;
    } else {
      assert names - {n} == names;
    }
  }

  /** A save keeps the gauge right if and only if it overwrites no active record. */
  lemma SaveGaugeIff(w: World, e: Entry)
    requires GaugeBalanced(w)
    ensures GaugeBalanced(AfterSave(w, e)) <==> NotActive(w, e.seen.owner)
  {
    var n := e.seen.owner;
    ActiveSave(w.store, n, RecordOf(e));
    OneMoreOrLess(ActiveNames(w.store), n);
    assert n in ActiveNames(w.store) <==> !NotActive(w, n);
    hide ActiveNames, NotActive;
    assert IsActive(RecordOf(e)) <==> e.seen.state == Up;
    assert AfterSave(w, e).store == w.store[n := RecordOf(e)];
  }

  predicate Harmless(w: World, step: Step) {
    step.SaveEntry? ==> StillTrue(w, step.entry) && NotActive(w, step.entry.seen.owner)
  }

  lemma StepSoundIffHarmless(s: Sys, step: Step)
    requires Snap(s) && Sound(s.w) && Enabled(s, step)
    ensures Sound(ApplyStep(s, step).w) <==> Harmless(s.w, step)
  {
    hide Agrees, GaugeBalanced, EntryKnown, Base, StillTrue, NotActive, Apply, AfterSave;
    match step
    case InSection(section) =>
      SectionAgrees(s.w, section);
      SectionGauge(s.w, section);
    case SaveEntry(e) =>
      SaveAgreesIff(s.w, e);
      SaveGaugeIff(s.w, e);
    case _ =>
  }

  ghost predicate AllSound(states: seq<Sys>, i: nat)
    requires i < |states|
  {
    forall k :: 0 <= k <= i ==> Sound(states[k].w)
  }

  ghost predicate AllHarmless(steps: seq<Step>, states: seq<Sys>, i: nat)
    requires i < |states| == |steps| + 1
  {
    forall k :: 0 <= k < i ==> Harmless(states[k].w, steps[k])
  }

  /** The exact condition, over every interleaving of Reconcile with everything else: records, containers and gauge
      agree throughout if and only if every saved entry was still true and overwrote no active record. */
  lemma {:induction false} OverlapSoundIffHarmless(w: World, steps: seq<Step>, states: seq<Sys>, i: nat)
    requires IsRun(w, steps, states) && Sound(w) && i < |states|
    ensures AllSound(states, i) <==> AllHarmless(steps, states, i)
  {
    if i == 0 {
      assert states[0].w == w;
    } else {
      OverlapSoundIffHarmless(w, steps, states, i - 1);
      AgreesHasBase(w);
      RunKeepsSnap(w, steps, states, i - 1);
      hide Sound, Harmless, Snap, Enabled, ApplyStep;
      assert AllSound(states, i) <==> AllSound(states, i - 1) && Sound(states[i].w);
      assert AllHarmless(steps, states, i) <==> AllHarmless(steps, states, i - 1) && Harmless(states[i - 1].w, steps[i - 1]);
      if AllSound(states, i - 1) {
        StepSoundIffHarmless(states[i - 1], steps[i - 1]);
      }
    }
  }

  // ---- It does go wrong ----

  /** List, destroy, look up, save. */
  function DestroyInBetween(e: Entry): seq<Step> {
    [TakeList, InSection(DoDestroy(e.seen.owner, true)), LookUp(e), SaveEntry(e)]
  }

  function AfterThem(s: Sys, e: Entry): seq<Sys> {
    var s1 := s.(listed := s.listed + EntriesOf(s.w));
    var s2 := s1.(w := Destroy(s.w, e.seen.owner, true).0);
    var s3 := s2.(cleared := s2.cleared + {e});
    [s, s1, s2, s3, s3.(w := AfterSave(s3.w, e))]
  }

  /** Any sandbox that is destroyed between the listing and its lookup comes back as a record without a container. */
  lemma DestroyInBetweenBreaks(w: World, n: Name) returns (steps: seq<Step>, states: seq<Sys>)
    requires Agrees(w) && n != "" && n in w.store && IsPlaced(w.store[n])
    ensures IsRun(w, steps, states) && |steps| == 4 && !Agrees(states[4].w)
  {
    assert RecordAgrees(w, n);
    var id := w.store[n].runtimeId.value;
    var e := Entry(id, w.containers[id]);
    var s := Sys(w, {}, {});
    assert e in EntriesOf(w);
    steps, states := DestroyInBetween(e), AfterThem(s, e);
    assert Apply(w, DoDestroy(n, true)) == Destroy(w, n, true).0;
    assert states[2].w.store == w.store - {n} && id !in states[2].w.containers;
    assert n in states[4].w.store && !RecordAgrees(states[4].w, n);
  }

  // ---- When it cannot go wrong ----

  /** The section stops, starts or destroys this sandbox. */
  predicate Disturbs(step: Step, n: Name) {
    step.InSection? &&
    match step.section
    case DoStop(m, _) => m == n
    case DoStart(m, _) => m == n
    case DoDestroy(m, _) => m == n
    case _ => false
  }

  predicate Current(w: World, e: Entry) {
    e.id in w.containers && w.containers[e.id] == e.seen
  }

  lemma ProvisionKeepsCurrent(w: World, n: Name, draft: Sandbox, hasProbe: bool, f: CreateFaults, e: Entry)
    requires Current(w, e) && e.id < w.nextId
    ensures Current(Provision(w, n, draft, hasProbe, f).0, e)
  {
  }

  lemma SectionKeepsCurrent(w: World, section: Section, e: Entry)
    requires EntryKnown(w, e) && Current(w, e) && !section.DoImport? && !Disturbs(InSection(section), e.seen.owner)
    ensures Current(Apply(w, section), e)
  {
    hide Provision, Admission;
    match section
    case DoCreate(req, f) =>
      if Admission(w, req) == Ok {
        AdmissionKnowsBlueprint(w, req);
        ProvisionKeepsCurrent(w, req.name, Draft(w, req), w.env.blueprints[req.blueprint].hasProbe, f, e);
      }
    case DoRestore(source, n, f) =>
      if source in w.store && n !in w.store {
        ProvisionKeepsCurrent(w, n, Sandbox(Creating, None, "", w.store[source].resources), false, f.(setup := []), e);
      }
    case _ =>
  }

  lemma ListedIsCurrent(w: World, e: Entry)
    requires e in EntriesOf(w)
    ensures Current(w, e)
  {
  }

  lemma StepKeepsCurrent(s: Sys, step: Step, e: Entry)
    requires Enabled(s, step) && EntryKnown(s.w, e) && e in s.listed && Current(s.w, e) && !Disturbs(step, e.seen.owner)
    ensures e in ApplyStep(s, step).listed && Current(ApplyStep(s, step).w, e)
  {
    if step.InSection? {
      hide EntriesOf, Current, EntryKnown, Apply, Disturbs;
      SectionKeepsCurrent(s.w, step.section, e);
    }
  }

  /** From the listing at state `j` on, no step up to `k` disturbs the sandbox. */
  predicate QuietSince(steps: seq<Step>, j: nat, k: nat, n: Name)
    requires k <= |steps|
  {
    forall x :: j <= x < k ==> !Disturbs(steps[x], n)
  }

  lemma {:induction false} QuietKeepsCurrent(w: World, steps: seq<Step>, states: seq<Sys>, j: nat, k: nat, e: Entry)
    requires IsRun(w, steps, states) && Base(w) && j < k <= |steps|
    requires steps[j] == TakeList && e in EntriesOf(states[j].w) && QuietSince(steps, j, k, e.seen.owner)
    ensures e in states[k].listed && Current(states[k].w, e)
  {
    hide EntriesOf, Current, EntryKnown, Base, Disturbs, Apply, Enabled;
    var s, step := states[k - 1], steps[k - 1];
    assert Enabled(s, step) && states[k] == ApplyStep(s, step);
    if k - 1 == j {
      ListedIsCurrent(s.w, e);
    } else {
      QuietKeepsCurrent(w, steps, states, j, k - 1, e);
      RunKeepsSnap(w, steps, states, k - 1);
      hide ApplyStep, IsRun;
      StepKeepsCurrent(s, step, e);
    }
  }

  /** Every saved entry comes from a listing since which its sandbox was left alone. */
  ghost predicate Quiet(steps: seq<Step>, states: seq<Sys>)
    requires |states| == |steps| + 1
  {
    forall k :: 0 <= k < |steps| && steps[k].SaveEntry? ==> QuietSave(steps, states, k)
  }

  ghost predicate QuietSave(steps: seq<Step>, states: seq<Sys>, k: nat)
    requires |states| == |steps| + 1 && k < |steps| && steps[k].SaveEntry?
  {
    exists j :: 0 <= j < k && steps[j] == TakeList && steps[k].entry in EntriesOf(states[j].w)
                && QuietSince(steps, j, k, steps[k].entry.seen.owner)
  }

  lemma QuietSaveIsCurrent(w: World, steps: seq<Step>, states: seq<Sys>, k: nat)
    requires IsRun(w, steps, states) && Base(w) && k < |steps| && steps[k].SaveEntry? && QuietSave(steps, states, k)
    ensures StillTrue(states[k].w, steps[k].entry)
  {
    assert |states| == |steps| + 1;
    hide IsRun, EntriesOf, Base;
    var e := steps[k].entry;
    var j :| 0 <= j < k && steps[j] == TakeList && e in EntriesOf(states[j].w) && QuietSince(steps, j, k, e.seen.owner);
    QuietKeepsCurrent(w, steps, states, j, k, e);
  }

  lemma QuietStepAgrees(w: World, steps: seq<Step>, states: seq<Sys>, i: nat)
    requires IsRun(w, steps, states) && Base(w) && Quiet(steps, states) && i < |steps| && Agrees(states[i].w)
    ensures Agrees(states[i + 1].w)
  {
    hide Agrees, Base, EntryKnown, AfterSave, Apply, EntriesOf, StillTrue, QuietSave;
    RunKeepsSnap(w, steps, states, i);
    var s, step := states[i], steps[i];
    assert Enabled(s, step) && states[i + 1] == ApplyStep(s, step);
    if step.SaveEntry? {
      QuietSaveIsCurrent(w, steps, states, i);
      hide IsRun, Quiet;
      SaveAgreesIff(s.w, step.entry);
    } else if step.InSection? {
      hide IsRun, Quiet;
      SectionAgrees(s.w, step.section);
    }
  }

  /** For the agreement of records and containers, a Reconcile may overlap anything but a stop, start or destroy of
      what it listed. */
  lemma {:induction false} QuietOverlapAgrees(w: World, steps: seq<Step>, states: seq<Sys>, i: nat)
    requires IsRun(w, steps, states) && Agrees(w) && Quiet(steps, states) && i < |states|
    ensures Agrees(states[i].w)
  {
    hide Agrees, Base, Quiet;
    if i > 0 {
      QuietOverlapAgrees(w, steps, states, i - 1);
      AgreesHasBase(w);
      QuietStepAgrees(w, steps, states, i - 1);
    }
  }

  /** The step may put a record under this name. */
  predicate Takes(step: Step, n: Name) {
    match step
    case InSection(section) =>
      (section.DoCreate? && section.req.name == n) || (section.DoRestore? && section.name == n)
    case SaveEntry(e) => e.seen.owner == n
    case _ => false
  }

  lemma SectionKeepsAbsent(w: World, section: Section, n: Name)
    requires n !in w.store && !section.DoImport? && !Takes(InSection(section), n)
    ensures n !in Apply(w, section).store
  {
    hide Provision, Admission;
    match section
    case DoCreate(req, f) =>
      if Admission(w, req) == Ok {
        AdmissionKnowsBlueprint(w, req);
        var sb := ProvisionRecord(w, req.name, Draft(w, req), w.env.blueprints[req.blueprint].hasProbe, f);
      }
    case DoRestore(source, m, f) =>
      if source in w.store && m !in w.store {
        var draft := Sandbox(Creating, None, "", w.store[source].resources);
        var sb := ProvisionRecord(w, m, draft, false, f.(setup := []));
      }
    case _ =>
  }

  /** From the lookup at state `l` on, no step up to `k` takes the name. */
  predicate UntakenSince(steps: seq<Step>, l: nat, k: nat, n: Name)
    requires k <= |steps|
  {
    forall x :: l <= x < k ==> !Takes(steps[x], n)
  }

  lemma {:induction false} UntakenStaysAbsent(w: World, steps: seq<Step>, states: seq<Sys>, l: nat, k: nat, n: Name)
    requires IsRun(w, steps, states) && l <= k <= |steps| && n !in states[l].w.store && UntakenSince(steps, l, k, n)
    ensures n !in states[k].w.store
  {
    hide Apply, EntriesOf;
    if k > l {
      UntakenStaysAbsent(w, steps, states, l, k - 1, n);
      var s, step := states[k - 1], steps[k - 1];
      assert Enabled(s, step) && states[k] == ApplyStep(s, step) && !Takes(step, n);
      hide IsRun;
      if step.InSection? {
        SectionKeepsAbsent(s.w, step.section, n);
      }
    }
  }

  /** Every save follows a lookup that found the name free, since when nobody has taken it. */
  ghost predicate Unclaimed(steps: seq<Step>, states: seq<Sys>)
    requires |states| == |steps| + 1
  {
    forall k :: 0 <= k < |steps| && steps[k].SaveEntry? ==> UnclaimedSave(steps, states, k)
  }

  ghost predicate UnclaimedSave(steps: seq<Step>, states: seq<Sys>, k: nat)
    requires |states| == |steps| + 1 && k < |steps| && steps[k].SaveEntry?
  {
    exists l :: 0 <= l < k && steps[l] == LookUp(steps[k].entry) && steps[k].entry.seen.owner !in states[l].w.store
                && UntakenSince(steps, l, k, steps[k].entry.seen.owner)
  }

  lemma UnclaimedSaveIsNew(w: World, steps: seq<Step>, states: seq<Sys>, k: nat)
    requires IsRun(w, steps, states) && k < |steps| && steps[k].SaveEntry? && UnclaimedSave(steps, states, k)
    ensures NotActive(states[k].w, steps[k].entry.seen.owner)
  {
    assert |states| == |steps| + 1;
    hide IsRun;
    var n := steps[k].entry.seen.owner;
    var l :| 0 <= l < k && steps[l] == LookUp(steps[k].entry) && n !in states[l].w.store && UntakenSince(steps, l, k, n);
    UntakenStaysAbsent(w, steps, states, l, k, n);
  }

  /** If besides nobody creates, restores or imports under the name between lookup and save, the gauge is right too. */
  lemma QuietOverlapSound(w: World, steps: seq<Step>, states: seq<Sys>, i: nat)
    requires IsRun(w, steps, states) && Sound(w) && Quiet(steps, states) && Unclaimed(steps, states) && i < |states|
    ensures Sound(states[i].w)
  {
    AgreesHasBase(w);
    hide IsRun, Sound, Base, StillTrue, NotActive, QuietSave, UnclaimedSave;
    forall k | 0 <= k < i
      ensures Harmless(states[k].w, steps[k])
    {
      if steps[k].SaveEntry? {
        QuietSaveIsCurrent(w, steps, states, k);
        UnclaimedSaveIsNew(w, steps, states, k);
      }
    }
    assert |states| == |steps| + 1;
    OverlapSoundIffHarmless(w, steps, states, i);
  }

  // ---- Inside a critical section ----

  /** The steps above fall between critical sections. A save that falls inside a Create is worse: it may be true and
      overwrite no active record, and yet the gauge is off when the Create ends with its Error record. */
  lemma SaveInsideCreateBreaksGauge(w: World, e: Entry, failed: Sandbox)
    requires GaugeBalanced(w) && e.seen.state == Up && failed.state == Error
    requires e.seen.owner in w.store && w.store[e.seen.owner].state == Creating
    ensures NotActive(w, e.seen.owner) && !GaugeBalanced(Save(AfterSave(w, e), e.seen.owner, failed))
  {
    var n := e.seen.owner;
    assert w.store[n := RecordOf(e)][n := failed] == w.store[n := failed];
    ActiveSave(w.store, n, failed);
    assert n !in ActiveNames(w.store) && ActiveNames(w.store) - {n} == ActiveNames(w.store);
    hide ActiveNames;
  }

  // ---- Quotas ----

  lemma SaveKeepsLimit(w: World, e: Entry, team: string, r: Resource)
    requires AllAmounts(w, r, NonNegative) && WithinLimit(w, team, r)
    ensures AllAmounts(AfterSave(w, e), r, NonNegative) && WithinLimit(AfterSave(w, e), team, r)
  {
    TotalSave(w.store, e.seen.owner, RecordOf(e), team, r);
    hide Total, Limit;
    assert Governed(w.env, team) ==> Share(RecordOf(e), team, r) == 0;
  }

  lemma OverlapStepKeepsLimit(s: Sys, step: Step, team: string, r: Resource)
    requires Enabled(s, step)
    requires AllAmounts(s.w, r, NonNegative) && SumsFit(s.w.env, r) && WithinLimit(s.w, team, r)
    ensures var w' := ApplyStep(s, step).w;
            w'.env == s.w.env && AllAmounts(w', r, NonNegative) && WithinLimit(w', team, r)
  {
    hide Apply, AllAmounts, WithinLimit, SumsFit, EntriesOf;
    if step.InSection? {
      SectionLimit(s.w, step.section, team, r);
    } else if step.SaveEntry? {
      SaveKeepsLimit(s.w, step.entry, team, r);
    }
  }

  /** Limits are kept in every interleaving, Reconcile included. */
  lemma {:induction false} OverlapKeepsLimit(
    w: World, steps: seq<Step>, states: seq<Sys>, i: nat, team: string, r: Resource)
    requires IsRun(w, steps, states) && i < |states|
    requires AllAmounts(w, r, NonNegative) && SumsFit(w.env, r) && WithinLimit(w, team, r)
    ensures states[i].w.env == w.env && AllAmounts(states[i].w, r, NonNegative) && WithinLimit(states[i].w, team, r)
  {
    hide AllAmounts, WithinLimit, SumsFit, ApplyStep, Enabled;
    if i > 0 {
      OverlapKeepsLimit(w, steps, states, i - 1, team, r);
      OverlapStepKeepsLimit(states[i - 1], steps[i - 1], team, r);
    }
  }
}
