/** The data of one blueprint's warm pool and the critical sections that change it.

    Every section that the Go code runs under `Pool.mu` is one function from the
    pool's fields before to its fields after. */
module PoolCore {
  import opened Wrappers

  /** Runtime ids; only their identity matters. */
  type ContainerId = nat

  /** The fields of BlueprintPool that the protocol reads; `token` is the one-slot notify channel. */
  datatype Core = Core(
    minReady: nat, maxSize: nat,
    ready: seq<ContainerId>, creating: int, inUse: int, totalCreated: int, token: bool)

  /** Claim's first section: take the newest ready container, if there is one. */
  function ClaimSection(c: Core): (Core, Option<ContainerId>) {
    if |c.ready| > 0 then
      (c.(ready := c.ready[..|c.ready| - 1], inUse := c.inUse + 1), Some(c.ready[|c.ready| - 1]))
    else
      (c, None)
  }

  /** Claim's second section, after an on-demand creation. */
  function OnDemandSection(c: Core): Core {
    c.(inUse := c.inUse + 1)
  }

  /** Release's section; the flag says whether the container went back to `ready`. */
  function ReleaseSection(c: Core, id: ContainerId): (Core, bool) {
    var c1 := if c.inUse > 0 then c.(inUse := c.inUse - 1) else c;
    if c1.maxSize > 0 && |c1.ready| + c1.inUse >= c1.maxSize then
      (c1, false)
    else
      (c1.(ready := c1.ready + [id]), true)
  }

  /** fillPool's section at the loop head; the flag says whether a creation begins. */
  function FillSection(c: Core): (Core, bool) {
    if c.minReady - |c.ready| - c.creating <= 0 then (c, false)
    else if c.maxSize > 0 && |c.ready| + c.inUse + c.creating >= c.maxSize then (c, false)
    else (c.(creating := c.creating + 1), true)
  }

  /** fillPool's section after the creation returned. */
  function PlaceSection(c: Core, made: Option<ContainerId>): Core {
    var c1 := c.(creating := c.creating - 1);
    match made
    case Some(id) => c1.(ready := c1.ready + [id])
    case None => c1
  }

  /** createWarmContainer's section. */
  function CountSection(c: Core): Core {
    c.(totalCreated := c.totalCreated + 1)
  }

  /** Drain's section: everything ready is collected for destruction. */
  function DrainSection(c: Core): (Core, seq<ContainerId>) {
    (c.(ready := []), c.ready)
  }

  /** fillPool has nothing to do: enough are ready, or the pool is at its maximum. */
  predicate Full(c: Core) {
    || |c.ready| >= c.minReady
    || (c.maxSize > 0 && |c.ready| + c.inUse >= c.maxSize)
  }

  /** How many containers a fill adds when nothing interferes and no creation fails. */
  function Shortfall(c: Core): (k: nat)
    ensures k == 0 <==> Full(c)
  {
    var missing := c.minReady - |c.ready|;
    var room := c.maxSize - |c.ready| - c.inUse;
    var k := if c.maxSize > 0 && room < missing then room else missing;
    if k < 0 then 0 else k
  }

  /** The containers that these answers of the runtime produced. */
  function Successes(outcomes: seq<Option<ContainerId>>): (ids: seq<ContainerId>)
    ensures |ids| <= |outcomes|
    ensures (forall o :: o in outcomes ==> o.Some?) ==> |ids| == |outcomes|
  {
    if outcomes == [] then []
    else
      var rest := Successes(outcomes[..|outcomes| - 1]);
      assert outcomes[|outcomes| - 1] in outcomes;
      match outcomes[|outcomes| - 1]
      case Some(id) => rest + [id]
      case None => rest
  }

  /** One whole round of fillPool's loop, when the runtime answers `made`. */
  function FillRound(c: Core, made: Option<ContainerId>): (Core, bool) {
    var (c1, begun) := FillSection(c);
    if !begun then (c, false)
    else (PlaceSection(if made.Some? then CountSection(c1) else c1, made), true)
  }
}
