/** Quotas over whole runs of the controller's critical sections. */
module QuotaProofs {
  import opened Wrappers
  import opened Records
  import opened Quota
  import opened Lifecycle
  import opened LifecycleProofs

  /** The team is within its limit on the resource, if there is one. */
  ghost predicate WithinLimit(w: World, team: string, r: Resource) {
    Governed(w.env, team) && team in w.env.quotas && Limit(w.env.quotas[team], r).Some? ==>
      Total(w.store, team, r) <= Limit(w.env.quotas[team], r).value
  }

  /** The team is within every limit that is set for it. */
  ghost predicate WithinQuota(w: World, team: string) {
    forall r: Resource :: WithinLimit(w, team, r)
  }

  /** In terms of the quota itself. */
  lemma WithinQuotaMeans(w: World, team: string)
    requires w.env.enforced && team != "" && team in w.env.quotas
    ensures var q := w.env.quotas[team];
            WithinQuota(w, team) <==>
              && (q.maxSandboxes > 0 ==> Total(w.store, team, Sandboxes) <= q.maxSandboxes)
              && (q.maxCpu.Units? ==> Total(w.store, team, Cpu) <= q.maxCpu.value)
              && (q.maxMemory.Units? ==> Total(w.store, team, Memory) <= q.maxMemory.value)
              && (q.maxDisk.Units? ==> Total(w.store, team, Disk) <= q.maxDisk.value)
              && (q.maxGpus > 0 ==> Total(w.store, team, Gpus) <= q.maxGpus)
  {
    hide Total;
    assert WithinQuota(w, team) ==>
      WithinLimit(w, team, Sandboxes) && WithinLimit(w, team, Cpu) && WithinLimit(w, team, Memory)
      && WithinLimit(w, team, Disk) && WithinLimit(w, team, Gpus);
  }

  datatype Sign = NonNegative | NonPositive {
    predicate Admits(x: int) {
      match this
      case NonNegative => x >= 0
      case NonPositive => x <= 0
    }
  }

  /** No blueprint file and no record asks for an amount of the other sign. */
  ghost predicate AllAmounts(w: World, r: Resource, sign: Sign) {
    && (forall path :: path in w.env.blueprints ==> sign.Admits(AmountOf(w.env.blueprints[path].resources, r)))
    && (forall n :: n in w.store ==> sign.Admits(AmountOf(w.store[n].resources, r)))
  }

  ghost predicate AmountsNonNegative(w: World) {
    forall r: Resource :: AllAmounts(w, r, NonNegative)
  }

  // ---- What a section does to the record store ----

  datatype Effect =
    | Keeps
    | Deletes(name: Name)
    | Updates(name: Name, record: Sandbox)        // same team, same resources
    | AddsTeamless(name: Name, record: Sandbox)   // a restored or imported sandbox
    | Admits(name: Name, record: Sandbox)         // a created sandbox, after the quota check

  ghost predicate HasEffect(w: World, s: Section, w': World, e: Effect) {
    && w'.env == w.env
    && match e
       case Keeps => w'.store == w.store
       case Deletes(n) => s.DoDestroy? && n in w.store && w'.store == w.store - {n}
       case Updates(n, sb) =>
         && w'.store == w.store[n := sb]
         && n in w.store && w.store[n].team == sb.team && w.store[n].resources == sb.resources
       case AddsTeamless(n, sb) =>
         && w'.store == w.store[n := sb] && n !in w.store && sb.team == ""
         && (sb.resources == UNKNOWN_RESOURCES || exists m :: m in w.store && w.store[m].resources == sb.resources)
       case Admits(n, sb) =>
         && s.DoCreate? && Admission(w, s.req) == Ok && n == s.req.name && w'.store == w.store[n := sb]
         && sb.team == s.req.team && sb.resources == w.env.blueprints[s.req.blueprint].resources
  }

  /** The two sections that create a container. */
  lemma ProvisionEffect(w: World, s: Section) returns (e: Effect)
    requires s.DoCreate? || s.DoRestore?
    ensures HasEffect(w, s, Apply(w, s), e)
  {
    hide Provision, Admission;
    e := Keeps;
    match s
    case DoCreate(req, f) =>
      if Admission(w, req) == Ok {
        AdmissionKnowsBlueprint(w, req);
        var sb := ProvisionRecord(w, req.name, Draft(w, req), w.env.blueprints[req.blueprint].hasProbe, f);
        e := Admits(req.name, sb);
      }
    case DoRestore(source, n, f) =>
      if source in w.store && n !in w.store {
        var draft := Sandbox(Creating, None, "", w.store[source].resources);
        var sb := ProvisionRecord(w, n, draft, false, f.(setup := []));
        e := AddsTeamless(n, sb);
      }
  }

  /** Every section has one of these effects. */
  lemma SectionEffect(w: World, s: Section) returns (e: Effect)
    ensures HasEffect(w, s, Apply(w, s), e)
  {
    hide Create, Restore, Admission;
    if s.DoCreate? || s.DoRestore? {
      e := ProvisionEffect(w, s);
      return;
    }
    e := Keeps;
    match s
    case DoImport(id) =>
      if Import(w, id) != w {
        var n := w.containers[id].owner;
        e := AddsTeamless(n, Import(w, id).store[n]);
      }
    case DoStop(n, ok) =>
      if Stop(w, n, ok).1 == Ok {
        e := Updates(n, w.store[n].(state := Stopped));
      }
    case DoStart(n, ok) =>
      if Start(w, n, ok).1 == Ok {
        e := Updates(n, w.store[n].(state := Running));
      }
    case DoDestroy(n, ok) =>
      if Destroy(w, n, ok).1 == Ok {
        e := Deletes(n);
      }
    case _ =>
  }

  lemma AdmissionKnowsBlueprint(w: World, req: CreateRequest)
    requires Admission(w, req) == Ok
    ensures req.name !in w.store && req.blueprint in w.env.blueprints
    ensures Governed(w.env, req.team) ==>
              CheckQuota(w.env.quotas, w.store, w.matrices, w.sessions, req.team,
                         RequestFor(w.env.blueprints[req.blueprint])).None?
  {
  }

  // ---- Limits ----

  /** The limit and any one amount add up in 64 bits. */
  predicate FitsBeside(limit: int, info: BlueprintInfo, r: Resource) {
    -TWO_63 <= limit < TWO_63 && limit + AmountOf(info.resources, r) < TWO_63
  }

  /** Limits and amounts of the resource are small enough for 64-bit sums. */
  ghost predicate SumsFit(env: Env, r: Resource) {
    forall team: string, path: string | team in env.quotas && path in env.blueprints ::
      Limit(env.quotas[team], r).Some? ==> FitsBeside(Limit(env.quotas[team], r).value, env.blueprints[path], r)
  }

  /** A request that passes the check fits on top of the usage that was checked, whatever its sign. */
  lemma PassedCheckFits(q: Quota, u: Usage, matrices: nat, sessions: nat, info: BlueprintInfo, r: Resource)
    requires CheckLimits(q, u, matrices, sessions, RequestFor(info)).None?
    requires Limit(q, r).Some? && u.Of(r) <= Limit(q, r).value && FitsBeside(Limit(q, r).value, info, r)
    ensures u.Of(r) + AmountOf(info.resources, r) <= Limit(q, r).value
  {
  }

  /** An admitted record leaves every team within its limit. */
  lemma AdmittedFits(w: World, req: CreateRequest, sb: Sandbox, team: string, r: Resource)
    requires Admission(w, req) == Ok && WithinLimit(w, team, r) && SumsFit(w.env, r)
    requires sb.team == req.team && sb.resources == w.env.blueprints[req.blueprint].resources
    ensures WithinLimit(w.(store := w.store[req.name := sb]), team, r)
  {
    AdmissionKnowsBlueprint(w, req);
    TotalSave(w.store, req.name, sb, team, r);
    hide Total, CheckLimits, Limit, Admission;
    if sb.team == team && Governed(w.env, team) && team in w.env.quotas && Limit(w.env.quotas[team], r).Some? {
      var u := Usage(Total(w.store, team, Sandboxes), Total(w.store, team, Cpu), Total(w.store, team, Memory),
                     Total(w.store, team, Disk), Total(w.store, team, Gpus));
      PassedCheckFits(w.env.quotas[team], u, |TeamMatrices(w.matrices, team)|, |TeamSessions(w.sessions, w.store, team)|,
                      w.env.blueprints[req.blueprint], r);
    }
  }

  /** Only deleting a record with a negative amount can take a team over its limit. */
  lemma EffectKeepsLimit(w: World, s: Section, w': World, e: Effect, team: string, r: Resource)
    requires HasEffect(w, s, w', e) && WithinLimit(w, team, r) && SumsFit(w.env, r)
    requires e.Deletes? ==> Share(w.store[e.name], team, r) >= 0
    ensures WithinLimit(w', team, r)
  {
    hide Total, Limit, Admission, AmountOf;
    match e
    case Keeps =>
    case Deletes(n) => TotalDelete(w.store, n, team, r);
    case Admits(n, sb) => AdmittedFits(w, s.req, sb, team, r);
    case _ => TotalSave(w.store, e.name, e.record, team, r);
  }

  /** Amounts keep their sign: new records take theirs from blueprint files and older records. */
  lemma EffectKeepsSign(w: World, s: Section, w': World, e: Effect, r: Resource, sign: Sign)
    requires HasEffect(w, s, w', e) && AllAmounts(w, r, sign) && (sign == NonPositive ==> r != Sandboxes)
    ensures AllAmounts(w', r, sign)
  {
    assert sign.Admits(AmountOf(UNKNOWN_RESOURCES, r));
    if e.Admits? {
      AdmissionKnowsBlueprint(w, s.req);
    }
    hide AmountOf, Admission;
  }

  lemma {:induction false} RunKeepsSign(w: World, sections: seq<Section>, r: Resource, sign: Sign)
    requires AllAmounts(w, r, sign) && (sign == NonPositive ==> r != Sandboxes)
    ensures AllAmounts(Run(w, sections), r, sign) && Run(w, sections).env == w.env
    decreases |sections|
  {
    hide Apply, AllAmounts;
    if sections != [] {
      var e := SectionEffect(w, sections[0]);
      EffectKeepsSign(w, sections[0], Apply(w, sections[0]), e, r, sign);
      RunKeepsSign(Apply(w, sections[0]), sections[1..], r, sign);
    }
  }

  lemma SectionLimit(w: World, s: Section, team: string, r: Resource)
    requires AllAmounts(w, r, NonNegative) && SumsFit(w.env, r) && WithinLimit(w, team, r)
    ensures AllAmounts(Apply(w, s), r, NonNegative) && Apply(w, s).env == w.env && WithinLimit(Apply(w, s), team, r)
  {
    var e := SectionEffect(w, s);
    hide Apply, WithinLimit;
    EffectKeepsSign(w, s, Apply(w, s), e, r, NonNegative);
    EffectKeepsLimit(w, s, Apply(w, s), e, team, r);
  }

  /** In every interleaving a team stays within its limit: the check and the save are one critical section. */
  lemma {:induction false} RunLimit(w: World, sections: seq<Section>, team: string, r: Resource)
    requires AllAmounts(w, r, NonNegative) && SumsFit(w.env, r) && WithinLimit(w, team, r)
    ensures WithinLimit(Run(w, sections), team, r)
    decreases |sections|
  {
    hide Apply, AllAmounts, WithinLimit, SumsFit;
    if sections != [] {
      SectionLimit(w, sections[0], team, r);
      RunLimit(Apply(w, sections[0]), sections[1..], team, r);
    }
  }

  /** All limits at once. */
  lemma RunQuota(w: World, sections: seq<Section>, team: string)
    requires AmountsNonNegative(w) && (forall r: Resource :: SumsFit(w.env, r)) && WithinQuota(w, team)
    ensures WithinQuota(Run(w, sections), team)
  {
    hide Run, WithinLimit, AllAmounts, SumsFit;
    forall r: Resource
      ensures WithinLimit(Run(w, sections), team, r)
    {
      RunLimit(w, sections, team, r);
    }
  }

  /** The limits are not negative, and small enough for 64-bit sums. */
  ghost predicate LimitsFit(w: World) {
    && (forall team: string, r: Resource | team in w.env.quotas ::
          Limit(w.env.quotas[team], r).Some? ==> Limit(w.env.quotas[team], r).value >= 0)
    && (forall r: Resource :: SumsFit(w.env, r))
  }

  /** The controller's guarantees, in every state that any interleaving reaches from startup. */
  lemma ControllerInvariant(w: World, sections: seq<Section>, team: string)
    requires Startup(w)
    ensures Agrees(Run(w, sections)) && GaugeBalanced(Run(w, sections))
    ensures AmountsNonNegative(w) && LimitsFit(w) ==> WithinQuota(Run(w, sections), team)
  {
    hide Run;
    RunAgrees(w, sections);
    assert ActiveNames(w.store) == {};
    RunGauge(w, sections);
    if AmountsNonNegative(w) && LimitsFit(w) {
      assert forall r: Resource :: Total(w.store, team, r) == 0;
      RunQuota(w, sections, team);
    }
  }

  // ---- The exact sign condition ----

  /** The resources that blueprint files give as signed amounts. */
  predicate IsAmount(r: Resource) {
    r == Cpu || r == Memory || r == Disk
  }

  function OnlyLimit(r: Resource, limit: int): Quota {
    Quota(0, if r == Cpu then Units(limit) else Unset, if r == Memory then Units(limit) else Unset,
          if r == Disk then Units(limit) else Unset, 0, 0, 0)
  }

  const TEAM := "team"

  /** A new system with these blueprint files and one team, which is limited in this resource only. */
  function NewSystem(blueprints: map<string, BlueprintInfo>, r: Resource, limit: int): World {
    World(Env(true, map[TEAM := OnlyLimit(r, limit)], blueprints), map[], map[], map[], map[], {}, 0, 0, 0)
  }

  /** Far from where 64-bit sums wrap. */
  const TWO_62: int := 0x4000_0000_0000_0000

  ghost predicate AmountsSmall(blueprints: map<string, BlueprintInfo>, r: Resource) {
    forall path :: path in blueprints ==> -TWO_62 < AmountOf(blueprints[path].resources, r) < TWO_62
  }

  /** With these blueprint files no run exceeds any limit up to 2^62. */
  ghost predicate AlwaysWithin(blueprints: map<string, BlueprintInfo>, r: Resource) {
    forall limit: nat, sections: seq<Section> | limit <= TWO_62 :: WithinLimit(Run(NewSystem(blueprints, r, limit), sections), TEAM, r)
  }

  ghost predicate AllOf(blueprints: map<string, BlueprintInfo>, r: Resource, sign: Sign) {
    forall path :: path in blueprints ==> sign.Admits(AmountOf(blueprints[path].resources, r))
  }

  lemma {:induction false} NonPositiveTotal(
    names: set<Name>, store: map<Name, Sandbox>, team: string, r: Resource)
    requires names <= store.Keys && forall n :: n in names ==> AmountOf(store[n].resources, r) <= 0
    ensures TotalOver(names, store, team, r) <= 0
    decreases |names|
  {
    if names != {} {
      var n :| n in names;
      TotalSplit(names, store, team, r, n);
      NonPositiveTotal(names - {n}, store, team, r);
    }
  }

  /** Amounts of one sign are enough. */
  lemma OneSignIsEnough(blueprints: map<string, BlueprintInfo>, r: Resource, sign: Sign, limit: nat, sections: seq<Section>)
    requires IsAmount(r) && AllOf(blueprints, r, sign) && AmountsSmall(blueprints, r) && limit <= TWO_62
    ensures WithinLimit(Run(NewSystem(blueprints, r, limit), sections), TEAM, r)
  {
    hide Run;
    var w := NewSystem(blueprints, r, limit);
    assert AllAmounts(w, r, sign);
    if sign == NonNegative {
      assert Total(w.store, TEAM, r) == 0;
      assert SumsFit(w.env, r);
      RunLimit(w, sections, TEAM, r);
    } else {
      RunKeepsSign(w, sections, r, sign);
      var w' := Run(w, sections);
      NonPositiveTotal(w'.store.Keys, w'.store, TEAM, r);
    }
  }

  /** A team with only this limit gets a sandbox whenever the amount fits. */
  lemma OnlyLimitCreate(w: World, req: CreateRequest, r: Resource, limit: int) returns (sb: Sandbox)
    requires IsAmount(r) && Governed(w.env, req.team) && req.team in w.env.quotas && w.env.quotas[req.team] == OnlyLimit(r, limit)
    requires req.name !in w.store && req.workspaceAllowed && req.blueprint in w.env.blueprints
    requires var amount := AmountOf(w.env.blueprints[req.blueprint].resources, r);
             amount != 0 && Sum(Total(w.store, req.team, r), amount, r) <= limit
    ensures var w' := Apply(w, DoCreate(req, NO_FAULTS));
            && w'.env == w.env && w'.store == w.store[req.name := sb]
            && Total(w'.store, req.team, r) ==
               Total(w.store, req.team, r) + AmountOf(w.env.blueprints[req.blueprint].resources, r)
    ensures sb.team == req.team && sb.resources == w.env.blueprints[req.blueprint].resources
  {
    hide Total;
    assert Admission(w, req) == Ok;
    hide AmountOf;
    sb := ProvisionRecord(w, req.name, Draft(w, req), w.env.blueprints[req.blueprint].hasProbe, NO_FAULTS);
    TotalSave(w.store, req.name, sb, req.team, r);
  }

  lemma RunOfThree(w: World, s1: Section, s2: Section, s3: Section)
    ensures Run(w, [s1, s2, s3]) == Apply(Apply(Apply(w, s1), s2), s3)
  {
    hide Apply;
    var w1 := Apply(w, s1);
    var w2 := Apply(w1, s2);
    assert [s1, s2, s3][1..] == [s2, s3] && [s2, s3][1..] == [s3] && [s3][1..] == [];
    assert Run(w, [s1, s2, s3]) == Run(w1, [s2, s3]) == Run(w2, [s3]) == Run(Apply(w2, s3), []);
  }

  /** Two new requests of one team that is limited in this resource only and uses none of it yet. */
  ghost predicate TwoRequests(w: World, first: CreateRequest, second: CreateRequest, r: Resource, limit: int) {
    && IsAmount(r) && first.team == second.team && Governed(w.env, first.team) && first.team in w.env.quotas
    && w.env.quotas[first.team] == OnlyLimit(r, limit)
    && first.name !in w.store && second.name !in w.store && first.name != second.name
    && first.workspaceAllowed && second.workspaceAllowed
    && first.blueprint in w.env.blueprints && second.blueprint in w.env.blueprints
    && Total(w.store, first.team, r) == 0
  }

  function Asked(w: World, req: CreateRequest, r: Resource): int
    requires req.blueprint in w.env.blueprints
  {
    AmountOf(w.env.blueprints[req.blueprint].resources, r)
  }

  /** Both are granted when the check lets them pass. */
  lemma BothGranted(w: World, first: CreateRequest, second: CreateRequest, r: Resource, limit: int)
    requires TwoRequests(w, first, second, r, limit)
    requires var a, b := Asked(w, first, r), Asked(w, second, r);
             a != 0 && b != 0 && Sum(0, a, r) <= limit && Sum(a, b, r) <= limit
    ensures var w2 := Apply(Apply(w, DoCreate(first, NO_FAULTS)), DoCreate(second, NO_FAULTS));
            && w2.env == w.env && Total(w2.store, first.team, r) == Asked(w, first, r) + Asked(w, second, r)
            && first.name in w2.store && Share(w2.store[first.name], first.team, r) == Asked(w, first, r)
  {
    hide Total, Apply, Sum, AmountOf, OnlyLimit, Governed;
    var sb1 := OnlyLimitCreate(w, first, r, limit);
    var w1 := Apply(w, DoCreate(first, NO_FAULTS));
    assert w1.env == w.env && second.name !in w1.store;
    var sb2 := OnlyLimitCreate(w1, second, r, limit);
  }

  lemma ExceedsOnlyLimit(w: World, team: string, r: Resource, limit: int)
    requires IsAmount(r) && Governed(w.env, team) && team in w.env.quotas && w.env.quotas[team] == OnlyLimit(r, limit)
    requires Total(w.store, team, r) > limit
    ensures !WithinLimit(w, team, r)
  {
    hide Total;
  }

  lemma DestroyDeletes(w: World, n: Name)
    requires n in w.store
    ensures Apply(w, DoDestroy(n, true)).env == w.env && Apply(w, DoDestroy(n, true)).store == w.store - {n}
  {
  }

  /** A record with a negative amount makes room for one that does not fit, and can then be destroyed. */
  lemma DebtIsLent(w: World, first: CreateRequest, second: CreateRequest, r: Resource, limit: nat)
    requires TwoRequests(w, first, second, r, limit)
    requires var debt, amount := Asked(w, first, r), Asked(w, second, r);
             -TWO_63 <= debt < 0 && -TWO_63 <= debt + amount <= limit < amount < TWO_63
    ensures var sections := [DoCreate(first, NO_FAULTS), DoCreate(second, NO_FAULTS), DoDestroy(first.name, true)];
            !WithinLimit(Run(w, sections), first.team, r)
  {
    hide Total, Apply, Run, AmountOf, Asked, OnlyLimit, WithinLimit;
    var s1, s2, s3 := DoCreate(first, NO_FAULTS), DoCreate(second, NO_FAULTS), DoDestroy(first.name, true);
    RunOfThree(w, s1, s2, s3);
    BothGranted(w, first, second, r, limit);
    var w2 := Apply(Apply(w, s1), s2);
    DestroyDeletes(w2, first.name);
    TotalDelete(w2.store, first.name, first.team, r);
    ExceedsOnlyLimit(Apply(w2, s3), first.team, r, limit);
  }

  /** Amounts of both signs break some limit. */
  lemma BothSignsBreakALimit(blueprints: map<string, BlueprintInfo>, r: Resource, negative: string, positive: string)
    returns (limit: nat, sections: seq<Section>)
    requires IsAmount(r) && negative in blueprints && positive in blueprints && AmountsSmall(blueprints, r)
    requires AmountOf(blueprints[negative].resources, r) < 0 < AmountOf(blueprints[positive].resources, r)
    ensures limit <= TWO_62 && !WithinLimit(Run(NewSystem(blueprints, r, limit), sections), TEAM, r)
  {
    var net := AmountOf(blueprints[negative].resources, r) + AmountOf(blueprints[positive].resources, r);
    limit := if net < 0 then 0 else net;
    var first, second := CreateRequest("a", negative, TEAM, true), CreateRequest("b", positive, TEAM, true);
    sections := [DoCreate(first, NO_FAULTS), DoCreate(second, NO_FAULTS), DoDestroy("a", true)];
    var w := NewSystem(blueprints, r, limit);
    assert Total(w.store, TEAM, r) == 0;
    hide Run, WithinLimit, Total;
    DebtIsLent(w, first, second, r, limit);
  }

  /** The exact condition: limits on an amount are kept in every run if and only if the blueprint files do not
      mix amounts of both signs. */
  lemma AlwaysWithinIffOneSign(blueprints: map<string, BlueprintInfo>, r: Resource)
    requires IsAmount(r) && AmountsSmall(blueprints, r)
    ensures AlwaysWithin(blueprints, r) <==> AllOf(blueprints, r, NonNegative) || AllOf(blueprints, r, NonPositive)
  {
    hide Run, WithinLimit, NewSystem, AmountOf;
    if !AllOf(blueprints, r, NonNegative) && !AllOf(blueprints, r, NonPositive) {
      var negative :| negative in blueprints && AmountOf(blueprints[negative].resources, r) < 0;
      var positive :| positive in blueprints && AmountOf(blueprints[positive].resources, r) > 0;
      var limit, sections := BothSignsBreakALimit(blueprints, r, negative, positive);
    } else {
      var sign := if AllOf(blueprints, r, NonNegative) then NonNegative else NonPositive;
      forall limit: nat, sections: seq<Section> | limit <= TWO_62
        ensures WithinLimit(Run(NewSystem(blueprints, r, limit), sections), TEAM, r)
      {
        OneSignIsEnough(blueprints, r, sign, limit, sections);
      }
    }
  }

  /** One byte, and almost 2^63 of them. */
  const EXTREMES := map[
    "small" := BlueprintInfo(Resources(Unset, Units(1), Units(1), 0), false),
    "huge" := BlueprintInfo(Resources(Unset, Units(TWO_63 - 1), Units(TWO_63 - 1), 0), false)]

  lemma ExtremeAmounts(r: Resource)
    requires r == Memory || r == Disk
    ensures AmountOf(EXTREMES["small"].resources, r) == 1 && AmountOf(EXTREMES["huge"].resources, r) == TWO_63 - 1
    ensures AllOf(EXTREMES, r, NonNegative) && Sum(0, 1, r) == 1 && Sum(1, TWO_63 - 1, r) == -TWO_63
  {
    SignedShift(-TWO_63, 1);
  }

  /** Two requests that both pass the check, the second because the sum wraps. */
  lemma WrappedSumPasses(w: World, first: CreateRequest, second: CreateRequest, r: Resource, limit: int)
    requires TwoRequests(w, first, second, r, limit)
    requires var a, b := Asked(w, first, r), Asked(w, second, r);
             a > 0 && b > 0 && Sum(0, a, r) <= limit && Sum(a, b, r) <= limit < a + b
    ensures !WithinLimit(Run(w, [DoCreate(first, NO_FAULTS), DoCreate(second, NO_FAULTS)]), first.team, r)
  {
    hide Total, Apply, Run, Sum, AmountOf, Asked, OnlyLimit, WithinLimit;
    RunOfTwo(w, DoCreate(first, NO_FAULTS), DoCreate(second, NO_FAULTS));
    BothGranted(w, first, second, r, limit);
    ExceedsOnlyLimit(Apply(Apply(w, DoCreate(first, NO_FAULTS)), DoCreate(second, NO_FAULTS)), first.team, r, limit);
  }

  /** Beyond that the sums wrap: with one byte in use, a request for 2^63 - 1 bytes passes the check of every limit,
      although no amount is negative. */
  lemma WrappedSumBreaksLimit(r: Resource, limit: int) returns (sections: seq<Section>)
    requires (r == Memory || r == Disk) && 1 <= limit < TWO_63
    ensures AllOf(EXTREMES, r, NonNegative) && !WithinLimit(Run(NewSystem(EXTREMES, r, limit), sections), TEAM, r)
  {
    ExtremeAmounts(r);
    hide AllOf, Sum, AmountOf, Run, WithinLimit;
    var w := NewSystem(EXTREMES, r, limit);
    var first, second := CreateRequest("a", "small", TEAM, true), CreateRequest("b", "huge", TEAM, true);
    sections := [DoCreate(first, NO_FAULTS), DoCreate(second, NO_FAULTS)];
    assert Total(w.store, TEAM, r) == 0;
    hide Total;
    WrappedSumPasses(w, first, second, r, limit);
  }

  lemma RunOfTwo(w: World, s1: Section, s2: Section)
    ensures Run(w, [s1, s2]) == Apply(Apply(w, s1), s2)
  {
    hide Apply;
    assert [s1, s2][1..] == [s2] && [s2][1..] == [];
    assert Run(w, [s1, s2]) == Run(Apply(w, s1), [s2]) == Run(Apply(Apply(w, s1), s2), []);
  }
}
