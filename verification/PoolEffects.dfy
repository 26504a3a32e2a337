/** What the steps of the pool do in reachable states, in terms of who holds what. */
module PoolEffects {
  import opened PoolCore
  import opened PoolProtocol

  /** A released container goes back to the pool if and only if the pool has no maximum, or what is ready and claimed
      before the release is within it; otherwise it is handed to Destroy. */
  lemma ReleaseKeepsIffRoom(
    minReady: nat, maxSize: nat, steps: seq<Step>, states: seq<Sys>, i: nat, id: ContainerId)
    requires IsRun(minReady, maxSize, steps, states) && i < |states| && id in states[i].held
    ensures var s := states[i];
            var s' := Apply(s, Release(id));
            var room := maxSize == 0 || |s.core.ready| + |s.held| <= maxSize;
            && (s'.core.ready == s.core.ready + [id] <==> room)
            && (!room ==> s'.core.ready == s.core.ready)
            && s'.handed == (if room then s.handed else s.handed + {id})
            && s'.held == s.held - {id} && s'.core.inUse == |s.held| - 1
  {
    EveryRunKeepsInv(minReady, maxSize, steps, states, i);
    RunKeepsSettings(minReady, maxSize, steps, states, i);
    hide IsRun, Exclusive, RuntimeAgrees, NoLostWakeup, WithinCapacity;
    assert states[i].held != {};
  }

  /** A claim takes the container that became ready last; it is then held, and the claimer is about to notify. */
  lemma ClaimTakesNewest(minReady: nat, maxSize: nat, steps: seq<Step>, states: seq<Sys>, i: nat, id: ContainerId)
    requires IsRun(minReady, maxSize, steps, states) && i < |states| && states[i].core.ready != []
    requires id == states[i].core.ready[|states[i].core.ready| - 1]
    ensures Enabled(states[i], ClaimHit) && !Enabled(states[i], ClaimMiss)
    ensures var s := states[i];
            var s' := Apply(s, ClaimHit);
            && s.core.ready == s'.core.ready + [id] && id !in s'.core.ready
            && id !in s.held && s'.held == s.held + {id} && s'.core.inUse == |s.held| + 1
            && s'.notifying == s.notifying + 1
  {
    EveryRunKeepsInv(minReady, maxSize, steps, states, i);
    var s := states[i];
    SoleOwner(s, id);
    hide IsRun, RuntimeAgrees, NoLostWakeup, WithinCapacity, Owners;
    assert id !in s.core.ready[..|s.core.ready| - 1];
  }

  /** The warmer begins a creation if and only if fewer containers are ready than wanted and, if there is a maximum, what
      is ready and claimed is below it. */
  lemma FillBeginsIffShort(minReady: nat, maxSize: nat, steps: seq<Step>, states: seq<Sys>, i: nat)
    requires IsRun(minReady, maxSize, steps, states) && i < |states| && states[i].warmer.Checking?
    ensures var s := states[i];
            var short := |s.core.ready| < minReady && (maxSize == 0 || |s.core.ready| + |s.held| < maxSize);
            var s' := Apply(s, FillCheck);
            && s'.warmer == (if short then Building(Asked) else Parked)
            && s'.core == s.core.(creating := if short then 1 else 0)
  {
    EveryRunKeepsInv(minReady, maxSize, steps, states, i);
    RunKeepsSettings(minReady, maxSize, steps, states, i);
    hide IsRun, Exclusive, RuntimeAgrees, NoLostWakeup, WithinCapacity;
  }

  /** A container the warmer has started is placed last; a failed creation places nothing. */
  lemma PlaceAppends(minReady: nat, maxSize: nat, steps: seq<Step>, states: seq<Sys>, i: nat)
    requires IsRun(minReady, maxSize, steps, states) && i < |states| && Enabled(states[i], WarmerPlace)
    ensures var s := states[i];
            var s' := Apply(s, WarmerPlace);
            && s'.core.ready == s.core.ready + (if s.warmer.making.Counted? then [s.warmer.making.id] else [])
            && s'.core.creating == 0 && s'.warmer == Checking && s'.core.inUse == |s.held|
  {
    EveryRunKeepsInv(minReady, maxSize, steps, states, i);
    hide IsRun, Exclusive, RuntimeAgrees, NoLostWakeup, WithinCapacity;
  }
}
