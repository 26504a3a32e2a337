/** The pool as an object. Its ghost field follows the protocol: each method is the step of some participant, and keeps
    the invariant of the protocol. */
module PoolObject {
  import opened Wrappers
  import opened PoolCore
  import opened PoolProtocol

  class BlueprintPool {
    const minReady: nat
    const maxSize: nat
    var ready: seq<ContainerId>
    var creating: int
    var inUse: int
    var totalCreated: int
    var token: bool
    ghost var sys: Sys

    ghost function View(): Core
      reads this
    {
      Core(minReady, maxSize, ready, creating, inUse, totalCreated, token)
    }

    /** The fields are those of a protocol state that satisfies the invariant. */
    ghost predicate Valid()
      reads this
    {
      sys.core == View() && Inv(sys)
    }

    constructor (minReady: nat, maxSize: nat)
      ensures View() == Core(minReady, maxSize, [], 0, 0, 0, false)
      ensures Valid() && sys == Initial(minReady, maxSize)
    {
      this.minReady, this.maxSize := minReady, maxSize;
      ready, creating, inUse, totalCreated, token := [], 0, 0, 0, false;
      sys := Initial(minReady, maxSize);
      new;
      EveryRunKeepsInv(minReady, maxSize, [], [sys], 0);
    }

    /** The protocol takes a step, if it can. */
    ghost method Follow(step: Step)
      modifies this`sys
      ensures Enabled(old(sys), step) ==> sys == Apply(old(sys), step)
      ensures Enabled(old(sys), step) && Inv(old(sys)) ==> Inv(sys)
    {
      hide Inv, Apply, Enabled;
      if Enabled(sys, step) {
        if Inv(sys) {
          StepKeeps(sys, step);
        }
        sys := Apply(sys, step);
      }
    }

    method Claim() returns (id: Option<ContainerId>)
      modifies this
      ensures (View(), id) == ClaimSection(old(View()))
      ensures if old(ready) == [] then id.None? && ready == [] else id.Some? && old(ready) == ready + [id.value]
      ensures old(Valid()) ==> Valid() && sys == Apply(old(sys), if id.Some? then ClaimHit else ClaimMiss)
    {
      hide Inv;
      if |ready| > 0 {
        Follow(ClaimHit);
        id := Some(ready[|ready| - 1]);
        ready := ready[..|ready| - 1];
        inUse := inUse + 1;
      } else {
        Follow(ClaimMiss);
        id := None;
      }
    }

    /** `id` is the container that was created on demand. */
    method TakeOnDemand(ghost id: ContainerId)
      modifies this
      ensures View() == OnDemandSection(old(View()))
      ensures old(Valid() && Enabled(sys, DemandTake(id))) ==> Valid() && sys == Apply(old(sys), DemandTake(id))
    {
      hide Inv;
      Follow(DemandTake(id));
      inUse := inUse + 1;
    }

    method Release(id: ContainerId) returns (kept: bool)
      modifies this
      ensures (View(), kept) == ReleaseSection(old(View()), id)
      ensures old(inUse) > 0 ==> (kept <==> maxSize == 0 || |old(ready)| + old(inUse) <= maxSize)
      ensures ready == old(ready) + if kept then [id] else []
      ensures old(Valid() && Enabled(sys, Step.Release(id))) ==> Valid() && sys == Apply(old(sys), Step.Release(id))
    {
      hide Inv;
      Follow(Step.Release(id));
      if inUse > 0 {
        inUse := inUse - 1;
      }
      var total := |ready| + inUse;
      if maxSize > 0 && total >= maxSize {
        return false;
      }
      ready := ready + [id];
      kept := true;
    }

    method BeginFill() returns (begun: bool)
      modifies this
      ensures (View(), begun) == FillSection(old(View()))
      ensures begun <==> |old(ready)| + old(creating) < minReady
                         && (maxSize == 0 || |old(ready)| + old(inUse) + old(creating) < maxSize)
      ensures old(Valid() && Enabled(sys, FillCheck)) ==> Valid() && sys == Apply(old(sys), FillCheck)
    {
      hide Inv;
      Follow(FillCheck);
      var needed := minReady - |ready| - creating;
      if needed <= 0 {
        return false;
      }
      if maxSize > 0 {
        var total := |ready| + inUse + creating;
        if total >= maxSize {
          return false;
        }
      }
      creating := creating + 1;
      begun := true;
    }

    method Place(made: Option<ContainerId>)
      modifies this
      ensures View() == PlaceSection(old(View()), made)
      ensures old(Valid() && Building(if made.Some? then Counted(made.value) else Failed) == sys.warmer) ==>
                Valid() && sys == Apply(old(sys), WarmerPlace)
    {
      hide Inv;
      Follow(WarmerPlace);
      creating := creating - 1;
      match made
      case Some(id) => ready := ready + [id];
      case None =>
    }

    /** `step` says for whom the container was created: for the warmer or on demand. */
    method Count(ghost step: Step)
      modifies this
      ensures View() == CountSection(old(View()))
      ensures old(Valid() && Enabled(sys, step)) && (step.WarmerCount? || step.DemandCount?) ==>
                Valid() && sys == Apply(old(sys), step)
    {
      hide Inv;
      Follow(step);
      totalCreated := totalCreated + 1;
    }

    method Drain() returns (ids: seq<ContainerId>)
      modifies this
      ensures (View(), ids) == DrainSection(old(View()))
      ensures old(Valid() && Enabled(sys, Step.Drain)) ==> Valid() && sys == Apply(old(sys), Step.Drain)
    {
      hide Inv;
      Follow(Step.Drain);
      ids := ready;
      ready := [];
    }

    /** The runtime calls of createWarmContainer, which touch no field. */
    ghost method FollowCreation(made: Option<ContainerId>)
      modifies this`sys
      ensures old(Valid() && sys.warmer == Building(Asked)) && (made.Some? ==> !Known(old(sys), made.value)) ==>
                && Valid() && sys.core == old(sys.core)
                && sys.warmer == Building(if made.Some? then Started(made.value) else Failed)
                && forall x: ContainerId :: Known(sys, x) ==> Known(old(sys), x) || made == Some(x)
    {
      hide Inv;
      if made.Some? {
        Follow(WarmerCreate(made.value));
        Follow(WarmerStart);
      } else {
        Follow(WarmerCreateFails);
      }
    }

    /** One round of fillPool's loop with nobody else at work. */
    method FillOnce(made: Option<ContainerId>) returns (begun: bool)
      modifies this
      ensures (View(), begun) == FillRound(old(View()), made)
      ensures old(Valid() && sys.warmer.Checking?) && (made.Some? ==> !Known(old(sys), made.value)) ==>
                && Valid() && (begun ==> sys.warmer.Checking?)
                && forall x: ContainerId :: Known(sys, x) ==> Known(old(sys), x) || made == Some(x)
    {
      hide Inv;
      begun := BeginFill();
      if !begun {
        return;
      }
      FollowCreation(made);
      if made.Some? {
        Count(WarmerCount);
      }
      Place(made);
    }

    /** The runtime's answers are ids it never gave before. */
    ghost predicate FreshAnswers(outcomes: seq<Option<ContainerId>>, from: nat)
      reads this
    {
      && (forall i :: from <= i < |outcomes| && outcomes[i].Some? ==> !Known(sys, outcomes[i].value))
      && (forall i, j :: 0 <= i < j < |outcomes| && outcomes[i].Some? ==> outcomes[i] != outcomes[j])
    }

    /** fillPool with nobody else at work. `outcomes` is what the runtime answers, in order;
        running out of answers stands for the context being cancelled. The loop keeps
        retrying after a failed creation, and it never creates past the shortfall. */
    method FillPool(outcomes: seq<Option<ContainerId>>) returns (used: nat)
      requires creating == 0
      modifies this
      ensures used <= |outcomes|
      ensures ready == old(ready) + Successes(outcomes[..used])
      ensures creating == 0 && inUse == old(inUse) && token == old(token)
      ensures totalCreated == old(totalCreated) + |Successes(outcomes[..used])|
      ensures |Successes(outcomes[..used])| <= old(Shortfall(View()))
      ensures used < |outcomes| ==> Full(View()) && |Successes(outcomes[..used])| == old(Shortfall(View()))
      ensures (forall o :: o in outcomes ==> o.Some?) && |outcomes| > old(Shortfall(View())) ==>
                used == old(Shortfall(View()))
      ensures old(Valid() && sys.warmer.Checking? && FreshAnswers(outcomes, 0)) ==> Valid()
    {
      hide Inv, FillSection, Known;
      used := 0;
      while used < |outcomes|
        invariant 0 <= used <= |outcomes|
        invariant creating == 0 && inUse == old(inUse) && token == old(token)
        invariant ready == old(ready) + Successes(outcomes[..used])
        invariant totalCreated == old(totalCreated) + |Successes(outcomes[..used])|
        invariant |Successes(outcomes[..used])| + Shortfall(View()) == old(Shortfall(View()))
        invariant old(Valid() && sys.warmer.Checking? && FreshAnswers(outcomes, 0)) ==>
                    Valid() && sys.warmer.Checking? && FreshAnswers(outcomes, used)
      {
        FillRoundEffect(View(), outcomes[used]);
        assert outcomes[..used + 1][..used] == outcomes[..used];
        var begun := FillOnce(outcomes[used]);
        if !begun {
          return;
        }
        used := used + 1;
      }
      assert outcomes[..used] == outcomes;
    }

    /** What a round does to the pool. */
    static lemma FillRoundEffect(c: Core, made: Option<ContainerId>)
      requires c.creating == 0
      ensures var (c', begun) := FillRound(c, made);
              && begun == !Full(c)
              && c' == c.(ready := c'.ready, totalCreated := c'.totalCreated)
              && (made.None? || !begun ==> c' == c)
              && (begun && made.Some? ==>
                    && c'.ready == c.ready + [made.value] && c'.totalCreated == c.totalCreated + 1
                    && Shortfall(c') == Shortfall(c) - 1)
    {
    }
  }
}
