/** Team quotas: usage as a sum over the record store, and the check against the limits. */
module Quota {
  import opened Wrappers
  import opened Arithmetic
  import opened Records

  datatype Resource = Sandboxes | Cpu | Memory | Disk | Gpus

  datatype Quota = Quota(
    maxSandboxes: int, maxCpu: Amount, maxMemory: Amount, maxDisk: Amount, maxGpus: int, maxMatrices: int,
    maxSessions: int)

  datatype Request = Request(sandboxes: int, cpu: Amount, memory: Amount, disk: Amount, gpus: int, matrices: int,
    sessions: int)

  datatype Refusal =
    | UnknownTeam
    | BadLimit(resource: Resource)
    | BadRequest(resource: Resource)
    | Exceeded(resource: Resource)
    | TooManyMatrices
    | TooManySessions

  /** What a team uses of each sandbox resource. */
  datatype Usage = Usage(sandboxes: int, cpu: int, memory: int, disk: int, gpus: int) {
    function Of(r: Resource): int {
      match r
      case Sandboxes => sandboxes
      case Cpu => cpu
      case Memory => memory
      case Disk => disk
      case Gpus => gpus
    }
  }

  /** How much of a resource a sandbox with these resources takes. */
  function AmountOf(res: Resources, r: Resource): int {
    match r
    case Sandboxes => 1
    case Cpu => Measured(res.cpu)
    case Memory => Measured(res.memory)
    case Disk => Measured(res.disk)
    case Gpus => res.gpus
  }

  /** What one record adds to the usage of `team`. */
  function Share(sb: Sandbox, team: string, r: Resource): int {
    if sb.team != team then 0 else AmountOf(sb.resources, r)
  }

  /** The team's usage over the records named in `names`. */
  ghost function TotalOver(names: set<Name>, store: map<Name, Sandbox>, team: string, r: Resource): int
    requires names <= store.Keys
  {
    if names == {} then 0
    else
      var n :| n in names;
      Share(store[n], team, r) + TotalOver(names - {n}, store, team, r)
  }

  ghost function Total(store: map<Name, Sandbox>, team: string, r: Resource): int {
    TotalOver(store.Keys, store, team, r)
  }

  function TeamMatrices(matrices: map<Name, Matrix>, team: string): set<Name> {
    set m | m in matrices && matrices[m].team == team
  }

  /** The active sessions in sandboxes of the team. */
  function TeamSessions(sessions: map<string, Session>, store: map<Name, Sandbox>, team: string): set<string> {
    set s | s in sessions && sessions[s].active && sessions[s].sandbox in store && store[sessions[s].sandbox].team == team
  }

  const TWO_63: int := 0x8000_0000_0000_0000
  const TWO_64: int := 0x1_0000_0000_0000_0000

  /** A number as a signed 64-bit integer holds it. */
  function Signed64(x: int): (s: int)
    ensures -TWO_63 <= s < TWO_63
    ensures -TWO_63 <= x < TWO_63 ==> s == x
  {
    (x + TWO_63) % TWO_64 - TWO_63
  }

  /** The sum that a check compares with the limit. Bytes and devices are 64-bit integers; it makes no difference that
      the usage itself was summed up in 64 bits. Processor shares are not integers, and nobody has 2^63 sandboxes. */
  function Sum(used: int, request: int, r: Resource): int {
    if r == Memory || r == Disk || r == Gpus then Signed64(used + request) else used + request
  }

  function CheckAmount(limit: Amount, request: Amount, used: int, r: Resource): Option<Refusal> {
    if limit.Unset? || request.Unset? then None
    else if limit.Malformed? then Some(BadLimit(r))
    else if request.Malformed? then Some(BadRequest(r))
    else if Sum(used, request.value, r) > limit.value then Some(Exceeded(r))
    else None
  }

  function CheckCount(limit: int, request: int, sum: int, refusal: Refusal): Option<Refusal> {
    if limit > 0 && request > 0 && sum > limit then Some(refusal) else None
  }

  function First(a: Option<Refusal>, b: Option<Refusal>): Option<Refusal> {
    if a.Some? then a else b
  }

  /** The limits in the order in which they are checked; the first one that is broken is reported. */
  function CheckLimits(q: Quota, u: Usage, matrices: nat, sessions: nat, req: Request): Option<Refusal> {
    First(CheckCount(q.maxSandboxes, req.sandboxes, Sum(u.sandboxes, req.sandboxes, Sandboxes), Exceeded(Sandboxes)),
    First(CheckAmount(q.maxCpu, req.cpu, u.cpu, Cpu),
    First(CheckAmount(q.maxMemory, req.memory, u.memory, Memory),
    First(CheckAmount(q.maxDisk, req.disk, u.disk, Disk),
    First(CheckCount(q.maxGpus, req.gpus, Sum(u.gpus, req.gpus, Gpus), Exceeded(Gpus)),
    First(CheckCount(q.maxMatrices, req.matrices, matrices + req.matrices, TooManyMatrices),
          CheckCount(q.maxSessions, req.sessions, sessions + req.sessions, TooManySessions)))))))
  }

  ghost function CheckQuota(
    quotas: map<string, Quota>, store: map<Name, Sandbox>, matrices: map<Name, Matrix>,
    sessions: map<string, Session>, team: string, req: Request): Option<Refusal>
  {
    if team !in quotas then Some(UnknownTeam)
    else
      var usage := Usage(Total(store, team, Sandboxes), Total(store, team, Cpu), Total(store, team, Memory),
                         Total(store, team, Disk), Total(store, team, Gpus));
      CheckLimits(quotas[team], usage, |TeamMatrices(matrices, team)|, |TeamSessions(sessions, store, team)|, req)
  }

  /** The limit set on a resource, if there is one. */
  function Limit(q: Quota, r: Resource): Option<int> {
    match r
    case Sandboxes => if q.maxSandboxes > 0 then Some(q.maxSandboxes) else None
    case Cpu => if q.maxCpu.Units? then Some(q.maxCpu.value) else None
    case Memory => if q.maxMemory.Units? then Some(q.maxMemory.value) else None
    case Disk => if q.maxDisk.Units? then Some(q.maxDisk.value) else None
    case Gpus => if q.maxGpus > 0 then Some(q.maxGpus) else None
  }

  lemma SignedShift(x: int, k: int)
    ensures Signed64(x + k * TWO_64) == Signed64(x)
  {
    var q, r := (x + TWO_63) / TWO_64, (x + TWO_63) % TWO_64;
    DivModUnique(x + k * TWO_64 + TWO_63, TWO_64, q + k, r);
  }

  /** Summing up in 64 bits and checking in 64 bits is checking the exact sum in 64 bits. */
  lemma SummedInSteps(x: int, y: int)
    ensures Signed64(Signed64(x) + y) == Signed64(x + y)
  {
    var q := (x + TWO_63) / TWO_64;
    assert Signed64(x) == x - q * TWO_64;
    assert Signed64(x) + y == x + y + (-q) * TWO_64;
    SignedShift(x + y, -q);
  }

  /** For a usage within the limit, the check decides rightly if and only if the sum does not wrap. */
  lemma CheckIsExactIffNoWrap(limit: int, used: int, request: int, r: Resource)
    requires r == Memory || r == Disk
    requires 0 <= used <= limit < TWO_63 && 0 <= request < TWO_63
    ensures (CheckAmount(Units(limit), Units(request), used, r).None? <==> used + request <= limit) <==>
            used + request < TWO_63
  {
    if used + request >= TWO_63 {
      SignedShift(used + request - TWO_64, 1);
      assert Signed64(used + request) == used + request - TWO_64;
    }
  }

  /** The same of GPUs, whose number is a 64-bit integer too. */
  lemma GpuCheckIsExactIffNoWrap(limit: int, used: int, request: int)
    requires 0 <= used <= limit < TWO_63 && 0 < limit && 0 < request < TWO_63
    ensures (CheckCount(limit, request, Sum(used, request, Gpus), Exceeded(Gpus)).None? <==> used + request <= limit) <==>
            used + request < TWO_63
  {
    if used + request >= TWO_63 {
      SignedShift(used + request - TWO_64, 1);
      assert Signed64(used + request) == used + request - TWO_64;
    }
  }

  // ---- The check is exact ----

  /** What is checked, in this order. */
  datatype Check = OnSandboxes | OnCpu | OnMemory | OnDisk | OnGpus | OnMatrices | OnSessions {
    function Rank(): nat {
      match this
      case OnSandboxes => 0
      case OnCpu => 1
      case OnMemory => 2
      case OnDisk => 3
      case OnGpus => 4
      case OnMatrices => 5
      case OnSessions => 6
    }
  }

  /** Both are given, and one is unreadable or the request does not fit. */
  predicate AmountBreaks(limit: Amount, request: Amount, used: int) {
    !limit.Unset? && !request.Unset? && (limit.Malformed? || request.Malformed? || used + request.value > limit.value)
  }

  predicate CountBreaks(limit: int, request: int, used: int) {
    limit > 0 && request > 0 && used + request > limit
  }

  /** The request breaks this limit, given the team's records, matrices and sessions. */
  ghost predicate Breaks(
    q: Quota, store: map<Name, Sandbox>, matrices: map<Name, Matrix>, sessions: map<string, Session>,
    team: string, req: Request, c: Check)
  {
    match c
    case OnSandboxes => CountBreaks(q.maxSandboxes, req.sandboxes, Total(store, team, Sandboxes))
    case OnCpu => AmountBreaks(q.maxCpu, req.cpu, Total(store, team, Cpu))
    case OnMemory => AmountBreaks(q.maxMemory, req.memory, Total(store, team, Memory))
    case OnDisk => AmountBreaks(q.maxDisk, req.disk, Total(store, team, Disk))
    case OnGpus => CountBreaks(q.maxGpus, req.gpus, Total(store, team, Gpus))
    case OnMatrices => CountBreaks(q.maxMatrices, req.matrices, |set m | m in matrices && matrices[m].team == team|)
    case OnSessions =>
      CountBreaks(q.maxSessions, req.sessions,
                  |set s | s in sessions && sessions[s].active && sessions[s].sandbox in store
                           && store[sessions[s].sandbox].team == team|)
  }

  function AmountRefusal(limit: Amount, request: Amount, r: Resource): Refusal {
    if limit.Malformed? then BadLimit(r) else if request.Malformed? then BadRequest(r) else Exceeded(r)
  }

  function RefusalOf(q: Quota, req: Request, c: Check): Refusal {
    match c
    case OnSandboxes => Exceeded(Sandboxes)
    case OnCpu => AmountRefusal(q.maxCpu, req.cpu, Cpu)
    case OnMemory => AmountRefusal(q.maxMemory, req.memory, Memory)
    case OnDisk => AmountRefusal(q.maxDisk, req.disk, Disk)
    case OnGpus => Exceeded(Gpus)
    case OnMatrices => TooManyMatrices
    case OnSessions => TooManySessions
  }

  predicate In64(x: int) {
    -TWO_63 <= x < TWO_63
  }

  /** No sum of a check wraps. */
  ghost predicate NoWrap(store: map<Name, Sandbox>, team: string, req: Request) {
    && (req.memory.Units? ==> In64(Total(store, team, Memory) + req.memory.value))
    && (req.disk.Units? ==> In64(Total(store, team, Disk) + req.disk.value))
    && In64(Total(store, team, Gpus) + req.gpus)
  }

  lemma CheckAmountExact(limit: Amount, request: Amount, used: int, r: Resource)
    requires request.Units? && (r == Memory || r == Disk || r == Gpus) ==> In64(used + request.value)
    ensures CheckAmount(limit, request, used, r) ==
            if AmountBreaks(limit, request, used) then Some(AmountRefusal(limit, request, r)) else None
  {
  }

  lemma CheckCountExact(limit: int, request: int, used: int, r: Resource, refusal: Refusal)
    requires r == Gpus ==> In64(used + request)
    requires r == Gpus || r == Sandboxes
    ensures CheckCount(limit, request, Sum(used, request, r), refusal) ==
            if CountBreaks(limit, request, used) then Some(refusal) else None
  {
  }

  lemma PlainCountExact(limit: int, request: int, used: int, refusal: Refusal)
    ensures CheckCount(limit, request, used + request, refusal) ==
            if CountBreaks(limit, request, used) then Some(refusal) else None
  {
  }

  /** The first of the limits that is broken. */
  ghost function FirstBroken(
    q: Quota, store: map<Name, Sandbox>, matrices: map<Name, Matrix>, sessions: map<string, Session>,
    team: string, req: Request): (c: Option<Check>)
    ensures c.None? ==> forall d: Check :: !Breaks(q, store, matrices, sessions, team, req, d)
    ensures c.Some? ==> Breaks(q, store, matrices, sessions, team, req, c.value)
    ensures c.Some? ==>
              forall d: Check :: d.Rank() < c.value.Rank() ==> !Breaks(q, store, matrices, sessions, team, req, d)
  {
    if Breaks(q, store, matrices, sessions, team, req, OnSandboxes) then Some(OnSandboxes)
    else if Breaks(q, store, matrices, sessions, team, req, OnCpu) then Some(OnCpu)
    else if Breaks(q, store, matrices, sessions, team, req, OnMemory) then Some(OnMemory)
    else if Breaks(q, store, matrices, sessions, team, req, OnDisk) then Some(OnDisk)
    else if Breaks(q, store, matrices, sessions, team, req, OnGpus) then Some(OnGpus)
    else if Breaks(q, store, matrices, sessions, team, req, OnMatrices) then Some(OnMatrices)
    else if Breaks(q, store, matrices, sessions, team, req, OnSessions) then Some(OnSessions)
    else None
  }

  /** The check is exact: an unknown team is refused; a known one is refused if and only if some limit that is set and
      asked for is unreadable or broken, and the refusal names the first such limit. */
  lemma CheckQuotaExact(
    quotas: map<string, Quota>, store: map<Name, Sandbox>, matrices: map<Name, Matrix>, sessions: map<string, Session>,
    team: string, req: Request)
    requires NoWrap(store, team, req)
    ensures var refusal := CheckQuota(quotas, store, matrices, sessions, team, req);
            && (team !in quotas ==> refusal == Some(UnknownTeam))
            && (team in quotas ==>
                  var q := quotas[team];
                  var first := FirstBroken(q, store, matrices, sessions, team, req);
                  refusal == if first.None? then None else Some(RefusalOf(q, req, first.value)))
  {
    if team in quotas {
      var q := quotas[team];
      assert TeamMatrices(matrices, team) == set m | m in matrices && matrices[m].team == team;
      assert TeamSessions(sessions, store, team) ==
             set s | s in sessions && sessions[s].active && sessions[s].sandbox in store
                     && store[sessions[s].sandbox].team == team;
      CheckCountExact(q.maxSandboxes, req.sandboxes, Total(store, team, Sandboxes), Sandboxes, Exceeded(Sandboxes));
      CheckAmountExact(q.maxCpu, req.cpu, Total(store, team, Cpu), Cpu);
      CheckAmountExact(q.maxMemory, req.memory, Total(store, team, Memory), Memory);
      CheckAmountExact(q.maxDisk, req.disk, Total(store, team, Disk), Disk);
      CheckCountExact(q.maxGpus, req.gpus, Total(store, team, Gpus), Gpus, Exceeded(Gpus));
      PlainCountExact(q.maxMatrices, req.matrices, |TeamMatrices(matrices, team)|, TooManyMatrices);
      PlainCountExact(q.maxSessions, req.sessions, |TeamSessions(sessions, store, team)|, TooManySessions);
      hide Total, CheckAmount, CheckCount, AmountBreaks, CountBreaks, TeamMatrices, TeamSessions, Sum, AmountRefusal, In64;
    }
  }

  /** What one record counts for: only for its team, one sandbox, and what its readable amounts say. */
  lemma UsageOfOne(n: Name, sb: Sandbox, team: string)
    ensures var store := map[n := sb];
            var own := sb.team == team;
            && Total(store, team, Sandboxes) == (if own then 1 else 0)
            && Total(store, team, Cpu) == (if own && sb.resources.cpu.Units? then sb.resources.cpu.value else 0)
            && Total(store, team, Memory) == (if own && sb.resources.memory.Units? then sb.resources.memory.value else 0)
            && Total(store, team, Disk) == (if own && sb.resources.disk.Units? then sb.resources.disk.value else 0)
            && Total(store, team, Gpus) == (if own then sb.resources.gpus else 0)
  {
    var empty: map<Name, Sandbox> := map[];
    assert map[n := sb] == empty[n := sb];
    forall r: Resource
      ensures Total(map[n := sb], team, r) == Share(sb, team, r)
    {
      TotalSave(empty, n, sb, team, r);
      assert Total(empty, team, r) == 0;
    }
    hide Total;
  }

  // ---- Sums do not depend on the order of summation ----

  lemma {:induction false} TotalSplit(names: set<Name>, store: map<Name, Sandbox>, team: string, r: Resource, n: Name)
    requires names <= store.Keys && n in names
    ensures TotalOver(names, store, team, r) == Share(store[n], team, r) + TotalOver(names - {n}, store, team, r)
    decreases |names|
  {
    var m :| m in names && TotalOver(names, store, team, r) ==
                           Share(store[m], team, r) + TotalOver(names - {m}, store, team, r);
    if m != n {
      TotalSplit(names - {m}, store, team, r, n);
      TotalSplit(names - {n}, store, team, r, m);
      assert names - {m} - {n} == names - {n} - {m};
    }
  }

  lemma {:induction false} TotalAgrees(
    names: set<Name>, store: map<Name, Sandbox>, store': map<Name, Sandbox>, team: string, r: Resource)
    requires names <= store.Keys && names <= store'.Keys
    requires forall n :: n in names ==> Share(store[n], team, r) == Share(store'[n], team, r)
    ensures TotalOver(names, store, team, r) == TotalOver(names, store', team, r)
    decreases |names|
  {
    if names != {} {
      var n :| n in names;
      TotalSplit(names, store, team, r, n);
      TotalSplit(names, store', team, r, n);
      TotalAgrees(names - {n}, store, store', team, r);
    }
  }

  /** Saving a record replaces what its name contributed. */
  lemma TotalSave(store: map<Name, Sandbox>, n: Name, sb: Sandbox, team: string, r: Resource)
    ensures Total(store[n := sb], team, r) ==
            Total(store, team, r) - (if n in store then Share(store[n], team, r) else 0) + Share(sb, team, r)
  {
    var store' := store[n := sb];
    var rest := store.Keys - {n};
    TotalSplit(store'.Keys, store', team, r, n);
    assert store'.Keys - {n} == rest;
    TotalAgrees(rest, store, store', team, r);
    if n in store {
      TotalSplit(store.Keys, store, team, r, n);
    } else {
      assert store.Keys == rest;
    }
  }

  /** Deleting a record takes its share away. */
  lemma TotalDelete(store: map<Name, Sandbox>, n: Name, team: string, r: Resource)
    requires n in store
    ensures Total(store - {n}, team, r) == Total(store, team, r) - Share(store[n], team, r)
  {
    TotalSplit(store.Keys, store, team, r, n);
    assert (store - {n}).Keys == store.Keys - {n};
    TotalAgrees(store.Keys - {n}, store, store - {n}, team, r);
  }

  /** `u` accounts for every record except those in `rest`. */
  ghost predicate Accounts(u: Usage, rest: set<Name>, store: map<Name, Sandbox>, team: string)
    requires rest <= store.Keys
  {
    forall r: Resource :: u.Of(r) + TotalOver(rest, store, team, r) == Total(store, team, r)
  }

  lemma AccountsNext(u: Usage, u': Usage, rest: set<Name>, store: map<Name, Sandbox>, team: string, n: Name)
    requires rest <= store.Keys && n in rest && Accounts(u, rest, store, team)
    requires forall r: Resource :: u'.Of(r) == u.Of(r) + Share(store[n], team, r)
    ensures Accounts(u', rest - {n}, store, team)
  {
    forall r: Resource
      ensures u'.Of(r) + TotalOver(rest - {n}, store, team, r) == Total(store, team, r)
    {
      TotalSplit(rest, store, team, r, n);
    }
  }

  /** The loop of GetUsage over the sandboxes, in whatever order the store lists them. */
  method GetUsage(store: map<Name, Sandbox>, team: string) returns (u: Usage)
    ensures forall r: Resource :: u.Of(r) == Total(store, team, r)
  {
    u := Usage(0, 0, 0, 0, 0);
    var rest := store.Keys;
    while rest != {}
      invariant rest <= store.Keys && Accounts(u, rest, store, team)
      decreases |rest|
    {
      var n :| n in rest;
      var u' := Accumulate(u, store[n], team);
      AccountsNext(u, u', rest, store, team, n);
      u, rest := u', rest - {n};
    }
  }

  method Accumulate(u: Usage, sb: Sandbox, team: string) returns (u': Usage)
    ensures forall r: Resource :: u'.Of(r) == u.Of(r) + Share(sb, team, r)
  {
    u' := u;
    if sb.team == team {
      u' := u'.(sandboxes := u'.sandboxes + 1, gpus := u'.gpus + sb.resources.gpus);
      if sb.resources.cpu.Units? {
        u' := u'.(cpu := u'.cpu + sb.resources.cpu.value);
      }
      if sb.resources.memory.Units? {
        u' := u'.(memory := u'.memory + sb.resources.memory.value);
      }
      if sb.resources.disk.Units? {
        u' := u'.(disk := u'.disk + sb.resources.disk.value);
      }
    }
  }

  lemma SeenNext(team: set<Name>, left: set<Name>, m: Name)
    requires m in left
    ensures |team - (left - {m})| == |team - left| + if m in team then 1 else 0
  {
    if m in team {
      assert team - (left - {m}) == (team - left) + {m};
    } else {
      assert team - (left - {m}) == team - left;
    }
  }

  /** The loop of GetUsage over the matrices. */
  method CountMatrices(matrices: map<Name, Matrix>, team: string) returns (count: nat)
    ensures count == |TeamMatrices(matrices, team)|
    ensures count == |set m | m in matrices && matrices[m].team == team|
  {
    ghost var all := TeamMatrices(matrices, team);
    assert all == set m | m in matrices && matrices[m].team == team;
    assert forall m :: m in all <==> m in matrices && matrices[m].team == team;
    hide TeamMatrices;
    count := 0;
    var left := matrices.Keys;
    assert all - left == {};
    while left != {}
      invariant left <= matrices.Keys
      invariant count == |all - left|
      decreases |left|
    {
      var m :| m in left;
      SeenNext(all, left, m);
      left := left - {m};
      if matrices[m].team == team {
        count := count + 1;
      }
    }
    assert all - left == all;
  }

  /** The loop of GetUsage over the sessions. */
  method CountSessions(sessions: map<string, Session>, store: map<Name, Sandbox>, team: string) returns (count: nat)
    ensures count == |TeamSessions(sessions, store, team)|
    ensures count == |set s | s in sessions && sessions[s].active && sessions[s].sandbox in store
                             && store[sessions[s].sandbox].team == team|
  {
    ghost var all := TeamSessions(sessions, store, team);
    assert all == set s | s in sessions && sessions[s].active && sessions[s].sandbox in store
                          && store[sessions[s].sandbox].team == team;
    assert forall s :: s in all <==> s in sessions && sessions[s].active && sessions[s].sandbox in store
                                     && store[sessions[s].sandbox].team == team;
    hide TeamSessions;
    count := 0;
    var left := sessions.Keys;
    assert all - left == {};
    while left != {}
      invariant left <= sessions.Keys
      invariant count == |all - left|
      decreases |left|
    {
      var s :| s in left;
      SeenNext(all, left, s);
      left := left - {s};
      if sessions[s].active && sessions[s].sandbox in store && store[sessions[s].sandbox].team == team {
        count := count + 1;
      }
    }
    assert all - left == all;
  }
}
