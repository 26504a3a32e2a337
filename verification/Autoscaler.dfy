/** The autoscaler: how host pressure scales and pauses sandboxes. Fractions are exact: scales are real numbers. */
module AutoscaleSpec {
  import opened Wrappers

  type Name = string
  type Id = nat

  datatype Config = Config(
    memoryHighWater: real, memoryLowWater: real, cpuHighWater: real, cpuLowWater: real, minMemory: int, minCpu: real)

  datatype Host = Host(totalMemory: int, usedMemory: int, cpuPercent: real)

  datatype Pressure = Calm | Normal | High | Critical {
    function Level(): nat {
      match this
      case Calm => 0
      case Normal => 1
      case High => 2
      case Critical => 3
    }
  }

  function Graded(used: real, low: real, high: real): Pressure {
    if used > high + 0.10 then Critical
    else if used > high then High
    else if used > low then Normal
    else Calm
  }

  function MemoryPressure(cfg: Config, host: Host): Pressure {
    if host.totalMemory == 0 then Calm
    else Graded(host.usedMemory as real / host.totalMemory as real, cfg.memoryLowWater, cfg.memoryHighWater)
  }

  function CpuPressure(cfg: Config, host: Host): Pressure {
    Graded(host.cpuPercent / 100.0, cfg.cpuLowWater, cfg.cpuHighWater)
  }

  function PressureOf(cfg: Config, host: Host): Pressure {
    var mem, cpu := MemoryPressure(cfg, host), CpuPressure(cfg, host);
    if cpu.Level() > mem.Level() then cpu else mem
  }

  /** The autoscaler's record of a sandbox. Priorities: 0 low, 1 normal, 2 high, 3 critical. */
  datatype Sandbox = Sandbox(
    runtimeId: Id, priority: int, originalCpu: real, originalMemory: int, scale: real, paused: bool)

  datatype Limits = Limits(memory: int, cpuQuota: int)

  /** What the runtime really does with the container: frozen or not, and the limits last applied. */
  datatype Container = Container(paused: bool, limits: Option<Limits>)

  /** Conversion of a number to an integer: towards zero. */
  function Trunc(x: real): int {
    if x >= 0.0 then x.Floor else -((-x).Floor)
  }

  /** The limits scaleSandbox asks for. */
  function LimitsFor(cfg: Config, s: Sandbox, scale: real): Limits {
    var mem := Trunc(s.originalMemory as real * scale);
    var cpu := s.originalCpu * scale;
    Limits(if mem < cfg.minMemory then cfg.minMemory else mem,
           Trunc((if cpu < cfg.minCpu then cfg.minCpu else cpu) * 100000.0))
  }

  /** Which runtime calls on each sandbox succeed during one tick. */
  datatype Faults = Faults(pause: Name -> bool, unpause: Name -> bool, update: Name -> bool)

  /** The loops over all sandboxes. */
  datatype Phase = Expand | Shrink(target: real) | PauseLow

  function Greater(a: real, b: real): real {
    if a > b then a else b
  }

  /** The scale shrinkByPriority aims at. */
  function Shrunk(priority: int, target: real): real {
    if priority == 3 then Greater(target, 0.75)
    else if priority == 2 then Greater(target, 0.50)
    else if priority == 0 then target * 0.5
    else target
  }

  function ScaleOne(cfg: Config, s: Sandbox, c: Container, scale: real, ok: bool): (Sandbox, Container) {
    if ok then (s.(scale := scale), c.(limits := Some(LimitsFor(cfg, s, scale)))) else (s, c)
  }

  /** The body of one loop for one sandbox. */
  function StepOne(cfg: Config, ph: Phase, f: Faults, n: Name, s: Sandbox, c: Container): (Sandbox, Container) {
    match ph
    case Expand =>
      if s.paused && !f.unpause(n) then (s, c)
      else
        var s1 := s.(paused := false);
        var c1 := if s.paused then c.(paused := false) else c;
        if s1.scale < 1.0 then ScaleOne(cfg, s1, c1, 1.0, f.update(n)) else (s1, c1)
    case Shrink(target) =>
      if s.paused || s.scale == Shrunk(s.priority, target) then (s, c)
      else ScaleOne(cfg, s, c, Shrunk(s.priority, target), f.update(n))
    case PauseLow =>
      if s.priority <= 0 && !s.paused && f.pause(n)
      then (s.(paused := true, scale := 0.0), c.(paused := true))
      else (s, c)
  }

  /** The loop makes no runtime call for this sandbox. */
  predicate Idle(ph: Phase, s: Sandbox) {
    match ph
    case Expand => !s.paused && s.scale >= 1.0
    case Shrink(target) => s.paused || s.scale == Shrunk(s.priority, target)
    case PauseLow => s.priority > 0 || s.paused
  }

  /** The loops a tick runs at each pressure, in order. */
  function Phases(p: Pressure): seq<Phase> {
    match p
    case Calm => [Expand]
    case Normal => []
    case High => [Shrink(0.5)]
    case Critical => [PauseLow, Shrink(0.25)]
  }

  function StepAll(cfg: Config, phs: seq<Phase>, f: Faults, n: Name, s: Sandbox, c: Container): (Sandbox, Container) {
    if phs == [] then (s, c)
    else
      var (s1, c1) := StepOne(cfg, phs[0], f, n, s, c);
      StepAll(cfg, phs[1..], f, n, s1, c1)
  }

  /** One tick for one sandbox. */
  function TickOne(cfg: Config, p: Pressure, f: Faults, n: Name, s: Sandbox, c: Container): (Sandbox, Container) {
    StepAll(cfg, Phases(p), f, n, s, c)
  }

  datatype Fleet = Fleet(sandboxes: map<Name, Sandbox>, containers: map<Id, Container>)

  /** Every sandbox has its own container. */
  ghost predicate Wired(w: Fleet) {
    && (forall n :: n in w.sandboxes ==> w.sandboxes[n].runtimeId in w.containers)
    && (forall m, n :: m in w.sandboxes && n in w.sandboxes && m != n ==>
          w.sandboxes[m].runtimeId != w.sandboxes[n].runtimeId)
  }

  predicate Owned(w: Fleet, names: set<Name>, id: Id) {
    exists n :: n in names && n in w.sandboxes && w.sandboxes[n].runtimeId == id
  }

  /** `w'` is `w` after the phases ran for the sandboxes in `done`, each on its own. */
  ghost predicate Stepped(w: Fleet, w': Fleet, cfg: Config, phs: seq<Phase>, f: Faults, done: set<Name>)
    requires Wired(w)
  {
    && w'.sandboxes.Keys == w.sandboxes.Keys && w'.containers.Keys == w.containers.Keys
    && (forall n :: n in w.sandboxes ==>
          var s := w.sandboxes[n];
          (w'.sandboxes[n], w'.containers[s.runtimeId]) ==
            if n in done then StepAll(cfg, phs, f, n, s, w.containers[s.runtimeId]) else (s, w.containers[s.runtimeId]))
    && (forall id :: id in w.containers && !Owned(w, w.sandboxes.Keys, id) ==> w'.containers[id] == w.containers[id])
  }

  lemma StepKeepsIdentity(cfg: Config, ph: Phase, f: Faults, n: Name, s: Sandbox, c: Container)
    ensures var s' := StepOne(cfg, ph, f, n, s, c).0;
            && s'.runtimeId == s.runtimeId && s'.priority == s.priority
            && s'.originalCpu == s.originalCpu && s'.originalMemory == s.originalMemory
  {
  }

  lemma StepSingle(cfg: Config, ph: Phase, f: Faults, n: Name, s: Sandbox, c: Container)
    ensures StepAll(cfg, [ph], f, n, s, c) == StepOne(cfg, ph, f, n, s, c)
  {
    assert [ph][1..] == [];
  }

  // ---- One sandbox ----

  predicate ScaleLevel(x: real) {
    x == 0.0 || x == 0.125 || x == 0.25 || x == 0.5 || x == 0.75 || x == 1.0
  }

  /** What holds of every tracked sandbox and its container. */
  predicate OkOne(cfg: Config, s: Sandbox, c: Container) {
    && (s.paused ==> s.scale == 0.0)
    && s.paused == c.paused
    && ScaleLevel(s.scale)
    && (s.scale > 0.0 && c.limits.Some? ==> c.limits.value == LimitsFor(cfg, s, s.scale))
  }

  /** A phase of some tick. */
  predicate RealPhase(ph: Phase) {
    ph.Shrink? ==> ph.target == 0.5 || ph.target == 0.25
  }

  lemma ShrunkIsLevel(priority: int, target: real)
    requires target == 0.5 || target == 0.25
    ensures ScaleLevel(Shrunk(priority, target)) && Shrunk(priority, target) > 0.0
  {
  }

  /** Limits depend on the original sizes and the scale only. */
  lemma LimitsIgnoreRest(cfg: Config, s: Sandbox, s': Sandbox, scale: real)
    requires s'.originalCpu == s.originalCpu && s'.originalMemory == s.originalMemory
    ensures LimitsFor(cfg, s', scale) == LimitsFor(cfg, s, scale)
  {
  }

  lemma ScaleOneOk(cfg: Config, s: Sandbox, c: Container, scale: real, ok: bool)
    requires OkOne(cfg, s, c) && !s.paused && ScaleLevel(scale)
    ensures var (s', c') := ScaleOne(cfg, s, c, scale, ok); OkOne(cfg, s', c')
  {
    LimitsIgnoreRest(cfg, s, s.(scale := scale), scale);
    hide LimitsFor;
  }

  /** Each loop keeps it, whichever runtime calls fail. */
  lemma StepKeepsOk(cfg: Config, ph: Phase, f: Faults, n: Name, s: Sandbox, c: Container)
    requires OkOne(cfg, s, c) && RealPhase(ph)
    ensures var (s', c') := StepOne(cfg, ph, f, n, s, c); OkOne(cfg, s', c')
  {
    hide ScaleOne, Shrunk, LimitsFor;
    match ph
    case Expand =>
      var s1, c1 := s.(paused := false), if s.paused then c.(paused := false) else c;
      if !s.paused || f.unpause(n) {
        LimitsIgnoreRest(cfg, s, s1, s.scale);
        assert OkOne(cfg, s1, c1);
        ScaleOneOk(cfg, s1, c1, 1.0, f.update(n));
      }
    case Shrink(target) =>
      ShrunkIsLevel(s.priority, target);
      if !s.paused {
        ScaleOneOk(cfg, s, c, Shrunk(s.priority, target), f.update(n));
      }
    case PauseLow =>
  }

  lemma TickKeepsOk(cfg: Config, p: Pressure, f: Faults, n: Name, s: Sandbox, c: Container)
    requires OkOne(cfg, s, c)
    ensures var (s', c') := TickOne(cfg, p, f, n, s, c); OkOne(cfg, s', c') && s'.runtimeId == s.runtimeId
  {
    hide OkOne, StepOne;
    var phs := Phases(p);
    if |phs| > 0 {
      StepKeepsOk(cfg, phs[0], f, n, s, c);
      StepKeepsIdentity(cfg, phs[0], f, n, s, c);
      var (s1, c1) := StepOne(cfg, phs[0], f, n, s, c);
      if |phs| > 1 {
        StepKeepsOk(cfg, phs[1], f, n, s1, c1);
        StepKeepsIdentity(cfg, phs[1], f, n, s1, c1);
        assert phs[1..] == [phs[1]];
        StepSingle(cfg, phs[1], f, n, s1, c1);
      } else {
        assert phs == [phs[0]];
        StepSingle(cfg, phs[0], f, n, s, c);
      }
    }
  }

  /** A paused sandbox stays paused, with no resource update, unless the pressure is gone. */
  lemma PausedStays(cfg: Config, p: Pressure, f: Faults, n: Name, s: Sandbox, c: Container)
    requires s.paused && p != Calm
    ensures TickOne(cfg, p, f, n, s, c) == (s, c)
  {
    var phs := Phases(p);
    if p == Critical {
      assert phs[1..] == [Shrink(0.25)];
      StepSingle(cfg, Shrink(0.25), f, n, s, c);
    } else if p == High {
      StepSingle(cfg, Shrink(0.5), f, n, s, c);
    }
  }

  /** Nothing fails. */
  ghost predicate NoFaults(f: Faults) {
    forall n: Name :: f.pause(n) && f.unpause(n) && f.update(n)
  }

  /** The scale a sandbox ends at. */
  function TargetScale(p: Pressure, s: Sandbox): real {
    match p
    case Calm => 1.0
    case Normal => s.scale
    case High => if s.paused then 0.0 else Shrunk(s.priority, 0.5)
    case Critical => if s.paused || s.priority <= 0 then 0.0 else Shrunk(s.priority, 0.25)
  }

  function TargetPaused(p: Pressure, s: Sandbox): bool {
    match p
    case Calm => false
    case Critical => s.paused || s.priority <= 0
    case _ => s.paused
  }

  /** A tick in which nothing fails, in closed form: it depends on the pressure, the priority and whether the
      sandbox was paused, and a sandbox that ends up unpaused at a new scale has the limits of that scale. */
  lemma TickClosedForm(cfg: Config, p: Pressure, f: Faults, n: Name, s: Sandbox, c: Container)
    requires NoFaults(f) && OkOne(cfg, s, c)
    ensures var (s', c') := TickOne(cfg, p, f, n, s, c);
            && s' == s.(scale := TargetScale(p, s), paused := TargetPaused(p, s))
            && c'.paused == s'.paused
            && c'.limits == (if s'.paused || s'.scale == s.scale then c.limits
                             else Some(LimitsFor(cfg, s, s'.scale)))
  {
    hide Trunc;
    match p
    case Calm => StepSingle(cfg, Expand, f, n, s, c);
    case Normal =>
    case High => StepSingle(cfg, Shrink(0.5), f, n, s, c);
    case Critical =>
      assert Phases(p)[1..] == [Shrink(0.25)];
      var (s1, c1) := StepOne(cfg, PauseLow, f, n, s, c);
      StepSingle(cfg, Shrink(0.25), f, n, s1, c1);
  }

  /** After such a tick another one at the same pressure makes no runtime call at all. */
  lemma TickSettles(cfg: Config, p: Pressure, f: Faults, n: Name, s: Sandbox, c: Container)
    requires NoFaults(f) && OkOne(cfg, s, c)
    ensures forall ph :: ph in Phases(p) ==> Idle(ph, TickOne(cfg, p, f, n, s, c).0)
  {
    TickClosedForm(cfg, p, f, n, s, c);
    hide TickOne;
  }

  /** More pressure never leaves a sandbox with more. */
  lemma ScalesAreOrdered(s: Sandbox)
    ensures TargetScale(Calm, s) >= TargetScale(High, s) >= TargetScale(Critical, s) >= 0.0
  {
  }

  lemma TruncOfFraction(x: int, scale: real)
    requires x >= 0 && 0.0 <= scale <= 1.0
    ensures 0 <= Trunc(x as real * scale) <= x
  {
    assert 0.0 <= x as real * scale <= x as real;
  }

  lemma TruncOfNegative(x: int, scale: real)
    requires x < 0 && 0.0 <= scale <= 1.0
    ensures Trunc(x as real * scale) <= 0
  {
    assert x as real * scale <= 0.0;
  }

  /** The memory limit sent to the runtime is between the floor and the original limit (or the floor, if that
      is higher). */
  lemma MemoryLimitInRange(cfg: Config, s: Sandbox, scale: real)
    requires ScaleLevel(scale) && (s.originalMemory >= 0 || cfg.minMemory >= 0)
    ensures var m := LimitsFor(cfg, s, scale).memory;
            cfg.minMemory <= m && (m <= cfg.minMemory || m <= s.originalMemory)
  {
    if s.originalMemory >= 0 {
      TruncOfFraction(s.originalMemory, scale);
    } else {
      TruncOfNegative(s.originalMemory, scale);
    }
    hide Trunc;
  }

  lemma TruncBounds(x: real)
    requires x >= 0.0
    ensures Trunc(x) >= 0 && Trunc(x) as real <= x < Trunc(x) as real + 1.0
  {
  }

  lemma TruncGrows(x: real, y: real)
    requires 0.0 <= x <= y
    ensures Trunc(x) <= Trunc(y)
  {
    TruncBounds(x);
    TruncBounds(y);
    assert Trunc(x) > Trunc(y) ==> Trunc(x) as real >= Trunc(y) as real + 1.0;
  }

  /** The memory limit is the scaled original, rounded down, or the floor if that is more. */
  lemma MemoryLimitExact(cfg: Config, s: Sandbox, scale: real)
    requires s.originalMemory >= 0 && scale >= 0.0
    ensures var m, scaled := LimitsFor(cfg, s, scale).memory, s.originalMemory as real * scale;
            && m >= cfg.minMemory && scaled < m as real + 1.0
            && (m == cfg.minMemory || m as real <= scaled)
            && (scaled >= (cfg.minMemory + 1) as real ==> m > cfg.minMemory)
  {
    var scaled := s.originalMemory as real * scale;
    assert scaled >= 0.0;
    TruncBounds(scaled);
    hide Trunc;
    assert Trunc(scaled) <= cfg.minMemory ==> Trunc(scaled) as real + 1.0 <= (cfg.minMemory + 1) as real;
  }

  /** The processor quota is the scaled share or the minimum share, whichever is more, in units of 1/100000 of a core,
      rounded down. */
  lemma CpuQuotaExact(cfg: Config, s: Sandbox, scale: real)
    requires s.originalCpu >= 0.0 && cfg.minCpu >= 0.0 && scale >= 0.0
    ensures var q, scaled, least := LimitsFor(cfg, s, scale).cpuQuota, s.originalCpu * scale * 100000.0, cfg.minCpu * 100000.0;
            && scaled < q as real + 1.0 && least < q as real + 1.0
            && (q as real <= scaled || q as real <= least)
  {
    var share := s.originalCpu * scale;
    assert share >= 0.0;
    var taken := if share < cfg.minCpu then cfg.minCpu else share;
    assert taken * 100000.0 >= 0.0;
    TruncBounds(taken * 100000.0);
    hide Trunc;
    assert share * 100000.0 <= taken * 100000.0 && cfg.minCpu * 100000.0 <= taken * 100000.0;
  }

  lemma MemoryGrowsWithScale(cfg: Config, s: Sandbox, a: real, b: real)
    requires s.originalMemory >= 0 && 0.0 <= a <= b
    ensures LimitsFor(cfg, s, a).memory <= LimitsFor(cfg, s, b).memory
  {
    ScalingGrows(s.originalMemory as real, a, b);
    TruncGrows(s.originalMemory as real * a, s.originalMemory as real * b);
    hide Trunc;
  }

  lemma CpuGrowsWithScale(cfg: Config, s: Sandbox, a: real, b: real)
    requires s.originalCpu >= 0.0 && cfg.minCpu >= 0.0 && 0.0 <= a <= b
    ensures LimitsFor(cfg, s, a).cpuQuota <= LimitsFor(cfg, s, b).cpuQuota
  {
    hide Trunc;
    var x, y := s.originalCpu * a, s.originalCpu * b;
    ScalingGrows(s.originalCpu, a, b);
    var x', y' := if x < cfg.minCpu then cfg.minCpu else x, if y < cfg.minCpu then cfg.minCpu else y;
    TruncGrows(x' * 100000.0, y' * 100000.0);
    QuotaOfShare(cfg, s, a, x');
    QuotaOfShare(cfg, s, b, y');
    hide LimitsFor;
  }

  lemma QuotaOfShare(cfg: Config, s: Sandbox, scale: real, share: real)
    requires share == if s.originalCpu * scale < cfg.minCpu then cfg.minCpu else s.originalCpu * scale
    ensures LimitsFor(cfg, s, scale).cpuQuota == Trunc(share * 100000.0)
  {
    hide Trunc;
  }

  /** More scale never means less. */
  lemma LimitsGrowWithScale(cfg: Config, s: Sandbox, a: real, b: real)
    requires s.originalMemory >= 0 && s.originalCpu >= 0.0 && cfg.minCpu >= 0.0 && 0.0 <= a <= b
    ensures LimitsFor(cfg, s, a).memory <= LimitsFor(cfg, s, b).memory
    ensures LimitsFor(cfg, s, a).cpuQuota <= LimitsFor(cfg, s, b).cpuQuota
  {
    hide LimitsFor;
    MemoryGrowsWithScale(cfg, s, a, b);
    CpuGrowsWithScale(cfg, s, a, b);
  }

  lemma ScalingGrows(x: real, a: real, b: real)
    requires x >= 0.0 && 0.0 <= a <= b
    ensures 0.0 <= x * a <= x * b
  {
    assert x * b == x * a + x * (b - a);
    assert x * (b - a) >= 0.0;
  }

  /** The scales in numbers: what a tick in which nothing fails does to a sandbox that is not paused. Priorities: 3 is
      critical, 2 high, 1 normal, 0 low. */
  lemma TickTable(cfg: Config, f: Faults, n: Name, s: Sandbox, c: Container)
    requires NoFaults(f) && OkOne(cfg, s, c) && !s.paused
    ensures var s' := TickOne(cfg, Calm, f, n, s, c).0; !s'.paused && s'.scale == 1.0
    ensures TickOne(cfg, Normal, f, n, s, c).0 == s
    ensures var s' := TickOne(cfg, High, f, n, s, c).0;
            && !s'.paused
            && s'.scale == (if s.priority == 3 then 0.75 else if s.priority == 0 then 0.25 else 0.5)
    ensures var s' := TickOne(cfg, Critical, f, n, s, c).0;
            && (s'.paused <==> s.priority <= 0)
            && s'.scale == (if s.priority == 3 then 0.75 else if s.priority == 2 then 0.5
                            else if s.priority <= 0 then 0.0 else 0.25)
  {
    TickClosedForm(cfg, Calm, f, n, s, c);
    TickClosedForm(cfg, Normal, f, n, s, c);
    TickClosedForm(cfg, High, f, n, s, c);
    TickClosedForm(cfg, Critical, f, n, s, c);
    hide TickOne, LimitsFor;
  }

  /** The pressure in terms of the thresholds: memory and processor each count, and without known memory only the
      processor. */
  lemma PressureThresholds(cfg: Config, host: Host)
    ensures var known := host.totalMemory != 0;
            var memory := if known then host.usedMemory as real / host.totalMemory as real else 0.0;
            var cpu := host.cpuPercent / 100.0;
            var p := PressureOf(cfg, host);
            && (p == Critical <==>
                  (known && memory > cfg.memoryHighWater + 0.1) || cpu > cfg.cpuHighWater + 0.1)
            && (p in {High, Critical} <==> (known && memory > cfg.memoryHighWater) || cpu > cfg.cpuHighWater)
            && (p == Calm <==>
                  && (known ==> memory <= cfg.memoryLowWater && memory <= cfg.memoryHighWater)
                  && cpu <= cfg.cpuLowWater && cpu <= cfg.cpuHighWater)
  {
  }

  // ---- The whole fleet, over any run ----

  datatype Step =
    | Tick(pressure: Pressure, faults: Faults)
    | SetPriority(name: Name, priority: int)
    | Register(name: Name, id: Id, priority: int, cpu: real, memory: int)
    | Unregister(name: Name)
    | Stop(faults: Faults)

  /** What RegisterSandbox does, also to a name that is tracked already; a container the runtime has just started is
      unpaused and has its full limits. */
  function AfterRegister(w: Fleet, n: Name, id: Id, priority: int, cpu: real, memory: int): Fleet {
    Fleet(w.sandboxes[n := Sandbox(id, priority, cpu, memory, 1.0, false)],
          if id in w.containers then w.containers else w.containers[id := Container(false, None)])
  }

  /** The container is not tracked under another name, and is not paused or scaled down. */
  predicate Unspoilt(cfg: Config, w: Fleet, n: Name, id: Id, cpu: real, memory: int) {
    && (forall m :: m in w.sandboxes && m != n ==> w.sandboxes[m].runtimeId != id)
    && (id in w.containers ==>
          && !w.containers[id].paused
          && (w.containers[id].limits.Some? ==>
                w.containers[id].limits.value == LimitsFor(cfg, Sandbox(id, 0, cpu, memory, 1.0, false), 1.0)))
  }

  /** Registrations are of unspoilt containers. */
  predicate Enabled(cfg: Config, w: Fleet, st: Step) {
    st.Register? ==> Unspoilt(cfg, w, st.name, st.id, st.cpu, st.memory)
  }

  /** The effect of a step; a tick and a stop act on each sandbox on its own, whatever the order. */
  ghost predicate Next(cfg: Config, w: Fleet, st: Step, w': Fleet)
    requires Wired(w)
  {
    && Enabled(cfg, w, st)
    && match st
       case Tick(p, f) => Stepped(w, w', cfg, Phases(p), f, w.sandboxes.Keys)
       case Stop(f) => Stepped(w, w', cfg, [Expand], f, w.sandboxes.Keys)
       case SetPriority(n, priority) =>
         w' == if n in w.sandboxes then w.(sandboxes := w.sandboxes[n := w.sandboxes[n].(priority := priority)]) else w
       case Register(n, id, priority, cpu, memory) =>
         w' == AfterRegister(w, n, id, priority, cpu, memory)
       case Unregister(n) => w' == w.(sandboxes := w.sandboxes - {n})
  }

  ghost predicate Inv(cfg: Config, w: Fleet) {
    && Wired(w)
    && forall n :: n in w.sandboxes ==> OkOne(cfg, w.sandboxes[n], w.containers[w.sandboxes[n].runtimeId])
  }

  /** The order in which a loop visits the sandboxes does not matter: the effect is determined. */
  lemma SteppedIsUnique(w: Fleet, a: Fleet, b: Fleet, cfg: Config, phs: seq<Phase>, f: Faults, done: set<Name>)
    requires Wired(w) && Stepped(w, a, cfg, phs, f, done) && Stepped(w, b, cfg, phs, f, done)
    ensures a == b
  {
    hide StepAll;
    assert a.sandboxes == b.sandboxes;
    forall id | id in w.containers
      ensures a.containers[id] == b.containers[id]
    {
      if Owned(w, w.sandboxes.Keys, id) {
        var n :| n in w.sandboxes && w.sandboxes[n].runtimeId == id;
      }
    }
  }

  lemma SteppedKeepsInv(cfg: Config, w: Fleet, p: Pressure, f: Faults, w': Fleet)
    requires Inv(cfg, w) && Stepped(w, w', cfg, Phases(p), f, w.sandboxes.Keys)
    ensures Inv(cfg, w')
  {
    hide OkOne, StepAll, Phases;
    forall n | n in w.sandboxes
      ensures w'.sandboxes[n].runtimeId == w.sandboxes[n].runtimeId
      ensures OkOne(cfg, w'.sandboxes[n], w'.containers[w.sandboxes[n].runtimeId])
    {
      TickKeepsOk(cfg, p, f, n, w.sandboxes[n], w.containers[w.sandboxes[n].runtimeId]);
    }
  }

  lemma SetPriorityKeepsInv(cfg: Config, w: Fleet, n: Name, priority: int)
    requires Inv(cfg, w) && n in w.sandboxes
    ensures Inv(cfg, w.(sandboxes := w.sandboxes[n := w.sandboxes[n].(priority := priority)]))
  {
    var s := w.sandboxes[n];
    LimitsIgnoreRest(cfg, s, s.(priority := priority), s.scale);
    hide LimitsFor;
  }

  /** A registration keeps the invariant if and only if the container is unspoilt. */
  lemma RegisterKeepsInvIff(cfg: Config, w: Fleet, n: Name, id: Id, priority: int, cpu: real, memory: int)
    requires Inv(cfg, w)
    ensures Inv(cfg, AfterRegister(w, n, id, priority, cpu, memory)) <==> Unspoilt(cfg, w, n, id, cpu, memory)
  {
    var w' := AfterRegister(w, n, id, priority, cpu, memory);
    var s := Sandbox(id, priority, cpu, memory, 1.0, false);
    LimitsIgnoreRest(cfg, Sandbox(id, 0, cpu, memory, 1.0, false), s, 1.0);
    hide LimitsFor;
    assert w'.sandboxes[n] == s && id in w'.containers;
    assert OkOne(cfg, s, w'.containers[id]) <==>
           !w'.containers[id].paused
           && (w'.containers[id].limits.Some? ==> w'.containers[id].limits.value == LimitsFor(cfg, s, 1.0));
    hide OkOne;
    forall m | m in w.sandboxes && m != n
      ensures w'.sandboxes[m] == w.sandboxes[m] && w'.containers[w.sandboxes[m].runtimeId] == w.containers[w.sandboxes[m].runtimeId]
    {
    }
  }

  lemma NextKeepsInv(cfg: Config, w: Fleet, st: Step, w': Fleet)
    requires Inv(cfg, w) && Next(cfg, w, st, w')
    ensures Inv(cfg, w')
  {
    hide StepAll, OkOne, Phases;
    match st
    case Tick(p, f) => SteppedKeepsInv(cfg, w, p, f, w');
    case Stop(f) =>
      CalmPhases();
      SteppedKeepsInv(cfg, w, Calm, f, w');
    case SetPriority(n, priority) =>
      if n in w.sandboxes {
        SetPriorityKeepsInv(cfg, w, n, priority);
      }
    case Register(n, id, priority, cpu, memory) =>
      RegisterKeepsInvIff(cfg, w, n, id, priority, cpu, memory);
    case Unregister(n) =>
  }

  lemma CalmPhases()
    ensures Phases(Calm) == [Expand]
  {
  }

  ghost predicate IsRun(cfg: Config, fleets: seq<Fleet>, steps: seq<Step>) {
    && |fleets| == |steps| + 1
    && forall i :: 0 <= i < |steps| ==> Wired(fleets[i]) && Next(cfg, fleets[i], steps[i], fleets[i + 1])
  }

  /** In every reachable state, whichever runtime calls failed: a paused sandbox has scale 0, the flag is the
      container's real state, scales are the six known ones, and applied limits match a positive scale. */
  lemma {:induction false} RunKeepsInv(cfg: Config, fleets: seq<Fleet>, steps: seq<Step>, i: nat)
    requires IsRun(cfg, fleets, steps) && Inv(cfg, fleets[0]) && i < |fleets|
    ensures Inv(cfg, fleets[i])
  {
    if i > 0 {
      RunKeepsInv(cfg, fleets, steps, i - 1);
      hide Next, Inv;
      NextKeepsInv(cfg, fleets[i - 1], steps[i - 1], fleets[i]);
    }
  }

  /** The step cannot end the pause of `n`. */
  predicate HoldsPause(st: Step, n: Name) {
    match st
    case Tick(p, _) => p != Calm
    case Stop(_) => false
    case Unregister(m) => m != n
    case Register(m, _, _, _, _) => m != n
    case _ => true
  }

  lemma NextKeepsPaused(cfg: Config, w: Fleet, st: Step, w': Fleet, n: Name)
    requires Inv(cfg, w) && Next(cfg, w, st, w') && HoldsPause(st, n)
    requires n in w.sandboxes && w.sandboxes[n].paused
    ensures n in w'.sandboxes && w'.sandboxes[n].paused && w'.sandboxes[n].runtimeId == w.sandboxes[n].runtimeId
    ensures w.sandboxes[n].runtimeId in w'.containers
    ensures w'.containers[w.sandboxes[n].runtimeId] == w.containers[w.sandboxes[n].runtimeId]
  {
    if st.Tick? {
      PausedStays(cfg, st.pressure, st.faults, n, w.sandboxes[n], w.containers[w.sandboxes[n].runtimeId]);
    }
    hide StepAll, OkOne;
  }

  /** Hysteresis: through any run without a calm tick, a stop, its removal or a new registration of it, a paused
      sandbox stays paused and its container is not touched, even if its priority is raised meanwhile. */
  lemma {:induction false} PausedUntilCalm(cfg: Config, fleets: seq<Fleet>, steps: seq<Step>, n: Name, i: nat)
    requires IsRun(cfg, fleets, steps) && Inv(cfg, fleets[0]) && i < |fleets|
    requires n in fleets[0].sandboxes && fleets[0].sandboxes[n].paused
    requires forall k :: 0 <= k < i ==> HoldsPause(steps[k], n)
    ensures n in fleets[i].sandboxes && fleets[i].sandboxes[n].paused
    ensures var id := fleets[0].sandboxes[n].runtimeId;
            && fleets[i].sandboxes[n].runtimeId == id && id in fleets[0].containers && id in fleets[i].containers
            && fleets[i].containers[id] == fleets[0].containers[id]
  {
    if i > 0 {
      PausedUntilCalm(cfg, fleets, steps, n, i - 1);
      RunKeepsInv(cfg, fleets, steps, i - 1);
      hide Next, OkOne;
      NextKeepsPaused(cfg, fleets[i - 1], steps[i - 1], fleets[i], n);
    }
  }

  /** The record is at full scale; the container runs, with the limits of that scale unless it never had others. */
  predicate Restored(cfg: Config, s: Sandbox, c: Container) {
    && !s.paused && s.scale == 1.0 && !c.paused
    && (c.limits.Some? ==> c.limits.value == LimitsFor(cfg, s, 1.0))
  }

  lemma CalmRestoresOne(cfg: Config, f: Faults, n: Name, s: Sandbox, c: Container)
    requires NoFaults(f) && OkOne(cfg, s, c)
    ensures var (s', c') := StepAll(cfg, [Expand], f, n, s, c);
            s' == s.(scale := 1.0, paused := false) && Restored(cfg, s', c')
  {
    TickClosedForm(cfg, Calm, f, n, s, c);
    TickKeepsOk(cfg, Calm, f, n, s, c);
    hide StepAll, LimitsFor;
  }

  /** A calm tick or a stop in which nothing fails gives every sandbox and its container full limits back. */
  lemma CalmRestoresAll(cfg: Config, w: Fleet, f: Faults, w': Fleet)
    requires Inv(cfg, w) && NoFaults(f) && Stepped(w, w', cfg, [Expand], f, w.sandboxes.Keys)
    ensures forall n :: n in w.sandboxes ==>
              && n in w'.sandboxes && w'.sandboxes[n].runtimeId == w.sandboxes[n].runtimeId
              && w.sandboxes[n].runtimeId in w'.containers
              && Restored(cfg, w'.sandboxes[n], w'.containers[w.sandboxes[n].runtimeId])
  {
    hide StepAll, OkOne, Restored;
    forall n | n in w.sandboxes
      ensures w'.sandboxes[n].runtimeId == w.sandboxes[n].runtimeId
      ensures Restored(cfg, w'.sandboxes[n], w'.containers[w.sandboxes[n].runtimeId])
    {
      CalmRestoresOne(cfg, f, n, w.sandboxes[n], w.containers[w.sandboxes[n].runtimeId]);
    }
  }

  // ---- Loops over the fleet ----

  lemma SteppedByNothing(w: Fleet, cfg: Config, phs: seq<Phase>, f: Faults)
    requires Wired(w)
    ensures Stepped(w, w, cfg, phs, f, {})
  {
  }

  lemma SteppedByNoPhase(w: Fleet, cfg: Config, f: Faults)
    requires Wired(w)
    ensures Stepped(w, w, cfg, [], f, w.sandboxes.Keys)
  {
  }

  /** One more sandbox. */
  lemma SteppedNext(w: Fleet, w1: Fleet, cfg: Config, ph: Phase, f: Faults, done: set<Name>, n: Name)
    requires Wired(w) && Stepped(w, w1, cfg, [ph], f, done) && n in w.sandboxes && n !in done
    ensures n in w1.sandboxes && w1.sandboxes[n] == w.sandboxes[n] && w.sandboxes[n].runtimeId in w1.containers
    ensures var s := w.sandboxes[n];
            var (s', c') := StepOne(cfg, ph, f, n, s, w1.containers[s.runtimeId]);
            Stepped(w, Fleet(w1.sandboxes[n := s'], w1.containers[s.runtimeId := c']), cfg, [ph], f, done + {n})
  {
    StepSingle(cfg, ph, f, n, w.sandboxes[n], w.containers[w.sandboxes[n].runtimeId]);
    hide StepAll, StepOne;
    var s := w.sandboxes[n];
    var (s', c') := StepOne(cfg, ph, f, n, s, w1.containers[s.runtimeId]);
    var w2 := Fleet(w1.sandboxes[n := s'], w1.containers[s.runtimeId := c']);
    assert Owned(w, w.sandboxes.Keys, s.runtimeId);
    assert forall m :: m in w.sandboxes && m != n ==> w.sandboxes[m].runtimeId != s.runtimeId;
  }

  lemma StepAllKeepsId(cfg: Config, ph: Phase, f: Faults, n: Name, s: Sandbox, c: Container)
    ensures StepAll(cfg, [ph], f, n, s, c).0.runtimeId == s.runtimeId
  {
    StepSingle(cfg, ph, f, n, s, c);
    StepKeepsIdentity(cfg, ph, f, n, s, c);
  }

  lemma SteppedStaysWired(w: Fleet, w1: Fleet, cfg: Config, ph: Phase, f: Faults, done: set<Name>)
    requires Wired(w) && Stepped(w, w1, cfg, [ph], f, done)
    ensures Wired(w1) && forall n :: n in w.sandboxes ==> w1.sandboxes[n].runtimeId == w.sandboxes[n].runtimeId
  {
    hide StepAll;
    forall n | n in w.sandboxes
      ensures w1.sandboxes[n].runtimeId == w.sandboxes[n].runtimeId
    {
      StepAllKeepsId(cfg, ph, f, n, w.sandboxes[n], w.containers[w.sandboxes[n].runtimeId]);
    }
  }

  lemma StepTwice(cfg: Config, a: Phase, b: Phase, f: Faults, n: Name, s: Sandbox, c: Container)
    ensures var (s1, c1) := StepAll(cfg, [a], f, n, s, c);
            StepAll(cfg, [a, b], f, n, s, c) == StepAll(cfg, [b], f, n, s1, c1)
  {
    StepSingle(cfg, a, f, n, s, c);
    assert [a, b][1..] == [b];
  }

  /** Two loops, one after the other. */
  lemma SteppedThen(w: Fleet, w1: Fleet, w2: Fleet, cfg: Config, a: Phase, b: Phase, f: Faults)
    requires Wired(w) && Stepped(w, w1, cfg, [a], f, w.sandboxes.Keys)
    requires Wired(w1) && Stepped(w1, w2, cfg, [b], f, w1.sandboxes.Keys)
    ensures Stepped(w, w2, cfg, [a, b], f, w.sandboxes.Keys)
  {
    SteppedStaysWired(w, w1, cfg, a, f, w.sandboxes.Keys);
    hide StepAll;
    forall n | n in w.sandboxes
      ensures var s := w.sandboxes[n];
              (w2.sandboxes[n], w2.containers[s.runtimeId]) == StepAll(cfg, [a, b], f, n, s, w.containers[s.runtimeId])
    {
      StepTwice(cfg, a, b, f, n, w.sandboxes[n], w.containers[w.sandboxes[n].runtimeId]);
    }
    forall id | id in w.containers && !Owned(w, w.sandboxes.Keys, id)
      ensures w2.containers[id] == w.containers[id]
    {
      assert !Owned(w1, w1.sandboxes.Keys, id);
    }
  }

  ghost predicate AllIdle(ph: Phase, sandboxes: map<Name, Sandbox>) {
    forall n :: n in sandboxes ==> Idle(ph, sandboxes[n])
  }

  /** No loop of a tick at this pressure has anything to do for any sandbox. */
  ghost predicate Settled(p: Pressure, sandboxes: map<Name, Sandbox>) {
    forall ph :: ph in Phases(p) ==> AllIdle(ph, sandboxes)
  }

  /** After a tick in which nothing failed the fleet is settled at that pressure. */
  lemma TickSettlesFleet(cfg: Config, w: Fleet, p: Pressure, f: Faults, w': Fleet)
    requires Inv(cfg, w) && NoFaults(f) && Stepped(w, w', cfg, Phases(p), f, w.sandboxes.Keys)
    ensures Settled(p, w'.sandboxes)
  {
    hide StepAll, OkOne, Idle, Phases;
    forall ph, n | ph in Phases(p) && n in w'.sandboxes
      ensures Idle(ph, w'.sandboxes[n])
    {
      TickSettles(cfg, p, f, n, w.sandboxes[n], w.containers[w.sandboxes[n].runtimeId]);
    }
  }

  lemma IdleStep(cfg: Config, ph: Phase, f: Faults, n: Name, s: Sandbox, c: Container)
    requires Idle(ph, s)
    ensures StepAll(cfg, [ph], f, n, s, c) == (s, c)
  {
    StepSingle(cfg, ph, f, n, s, c);
  }

  /** A loop that is idle for every sandbox changes nothing. */
  lemma IdleChangesNothing(w: Fleet, w': Fleet, cfg: Config, ph: Phase, f: Faults)
    requires Wired(w) && Stepped(w, w', cfg, [ph], f, w.sandboxes.Keys)
    requires AllIdle(ph, w.sandboxes)
    ensures w' == w
  {
    hide StepAll, Idle;
    forall n | n in w.sandboxes
      ensures var s := w.sandboxes[n]; StepAll(cfg, [ph], f, n, s, w.containers[s.runtimeId]) == (s, w.containers[s.runtimeId])
    {
      IdleStep(cfg, ph, f, n, w.sandboxes[n], w.containers[w.sandboxes[n].runtimeId]);
    }
    assert Stepped(w, w, cfg, [ph], f, w.sandboxes.Keys);
    SteppedIsUnique(w, w', w, cfg, [ph], f, w.sandboxes.Keys);
  }

  /** More memory or processor in use never lowers the pressure. */
  lemma PressureIsMonotone(cfg: Config, a: Host, b: Host)
    requires a.totalMemory == b.totalMemory >= 0 && a.usedMemory <= b.usedMemory && a.cpuPercent <= b.cpuPercent
    ensures PressureOf(cfg, a).Level() <= PressureOf(cfg, b).Level()
  {
    if a.totalMemory > 0 {
      var t := a.totalMemory as real;
      assert b.usedMemory as real / t == a.usedMemory as real / t + (b.usedMemory - a.usedMemory) as real / t;
      assert (b.usedMemory - a.usedMemory) as real / t >= 0.0;
    }
    assert a.cpuPercent / 100.0 <= b.cpuPercent / 100.0;
  }
}

/** The autoscaler as an object: its sandbox table, and the runtime it calls. */
module AutoscalerObject {
  import opened Wrappers
  import opened AutoscaleSpec

  class Autoscaler {
    const cfg: Config
    var sandboxes: map<Name, Sandbox>
    var containers: map<Id, Container>
    var running: bool
    ghost var calls: nat   // runtime calls made so far

    ghost function View(): Fleet
      reads this
    {
      Fleet(sandboxes, containers)
    }

    /** Each tracked sandbox has its own container, and the record is true of it. */
    ghost predicate Valid()
      reads this
    {
      Inv(cfg, View())
    }

    constructor (cfg: Config)
      ensures this.cfg == cfg && View() == Fleet(map[], map[]) && calls == 0 && Valid() && !running
    {
      this.cfg := cfg;
      sandboxes, containers, running, calls := map[], map[], false, 0;
    }

    /** A sandbox joins, or is registered anew. */
    method RegisterSandbox(n: Name, id: Id, cpu: real, memory: int, priority: int)
      modifies this
      ensures View() == AfterRegister(old(View()), n, id, priority, cpu, memory) && calls == old(calls)
      ensures sandboxes == old(sandboxes)[n := Sandbox(id, priority, cpu, memory, 1.0, false)]
      ensures old(Valid()) ==> (Valid() <==> Unspoilt(cfg, old(View()), n, id, cpu, memory))
    {
      hide Inv;
      if Inv(cfg, View()) {
        RegisterKeepsInvIff(cfg, View(), n, id, priority, cpu, memory);
      }
      if id !in containers {
        containers := containers[id := Container(false, None)];
      }
      sandboxes := sandboxes[n := Sandbox(id, priority, cpu, memory, 1.0, false)];
    }

    method SetSandboxPriority(n: Name, priority: int)
      requires Wired(View())
      modifies this
      ensures Next(cfg, old(View()), SetPriority(n, priority), View()) && calls == old(calls)
      ensures containers == old(containers) && sandboxes.Keys == old(sandboxes.Keys)
      ensures forall m :: m in sandboxes ==>
                sandboxes[m] == if m == n then old(sandboxes)[m].(priority := priority) else old(sandboxes)[m]
      ensures old(Valid()) ==> Valid()
    {
      hide Inv;
      if Inv(cfg, View()) && n in sandboxes {
        SetPriorityKeepsInv(cfg, View(), n, priority);
      }
      if n in sandboxes {
        sandboxes := sandboxes[n := sandboxes[n].(priority := priority)];
      }
    }

    method UnregisterSandbox(n: Name)
      requires Wired(View())
      modifies this
      ensures Next(cfg, old(View()), Unregister(n), View()) && calls == old(calls)
      ensures containers == old(containers) && sandboxes == old(sandboxes) - {n}
      ensures old(Valid()) ==> Valid()
    {
      sandboxes := sandboxes - {n};
    }

    /** scaleSandbox. */
    method ScaleSandbox(n: Name, scale: real, ok: bool)
      requires n in sandboxes && sandboxes[n].runtimeId in containers
      modifies this
      ensures var s := old(sandboxes[n]);
              var (s', c') := ScaleOne(cfg, s, old(containers[s.runtimeId]), scale, ok);
              sandboxes == old(sandboxes)[n := s'] && containers == old(containers)[s.runtimeId := c']
      ensures calls == old(calls) + 1
    {
      var s := sandboxes[n];
      calls := calls + 1;
      if ok {
        containers := containers[s.runtimeId := containers[s.runtimeId].(limits := Some(LimitsFor(cfg, s, scale)))];
        sandboxes := sandboxes[n := s.(scale := scale)];
      } else {
        assert sandboxes == sandboxes[n := s] && containers == containers[s.runtimeId := containers[s.runtimeId]];
      }
    }

    /** The body of expandAll's loop. */
    method ExpandOne(n: Name, f: Faults)
      requires n in sandboxes && sandboxes[n].runtimeId in containers
      modifies this
      ensures var s := old(sandboxes[n]);
              var (s', c') := StepOne(cfg, Expand, f, n, s, old(containers[s.runtimeId]));
              sandboxes == old(sandboxes)[n := s'] && containers == old(containers)[s.runtimeId := c']
      ensures Idle(Expand, old(sandboxes[n])) ==> calls == old(calls)
    {
      var s := sandboxes[n];
      assert sandboxes == sandboxes[n := s] && containers == containers[s.runtimeId := containers[s.runtimeId]];
      if s.paused {
        calls := calls + 1;
        if !f.unpause(n) {
          return;
        }
        containers := containers[s.runtimeId := containers[s.runtimeId].(paused := false)];
        sandboxes := sandboxes[n := s.(paused := false)];
      }
      if s.scale < 1.0 {
        ScaleSandbox(n, 1.0, f.update(n));
      }
    }

    /** The body of shrinkByPriority's loop. */
    method ShrinkOne(n: Name, target: real, f: Faults)
      requires n in sandboxes && sandboxes[n].runtimeId in containers
      modifies this
      ensures var s := old(sandboxes[n]);
              var (s', c') := StepOne(cfg, Shrink(target), f, n, s, old(containers[s.runtimeId]));
              sandboxes == old(sandboxes)[n := s'] && containers == old(containers)[s.runtimeId := c']
      ensures Idle(Shrink(target), old(sandboxes[n])) ==> calls == old(calls)
    {
      var s := sandboxes[n];
      assert sandboxes == sandboxes[n := s] && containers == containers[s.runtimeId := containers[s.runtimeId]];
      if s.paused {
        return;
      }
      var scale := target;
      if s.priority == 3 {
        scale := Greater(target, 0.75);
      } else if s.priority == 2 {
        scale := Greater(target, 0.50);
      } else if s.priority == 0 {
        scale := target * 0.5;
      }
      if s.scale != scale {
        ScaleSandbox(n, scale, f.update(n));
      }
    }

    /** The body of pauseLowPriority's loop. */
    method PauseOne(n: Name, f: Faults)
      requires n in sandboxes && sandboxes[n].runtimeId in containers
      modifies this
      ensures var s := old(sandboxes[n]);
              var (s', c') := StepOne(cfg, PauseLow, f, n, s, old(containers[s.runtimeId]));
              sandboxes == old(sandboxes)[n := s'] && containers == old(containers)[s.runtimeId := c']
      ensures Idle(PauseLow, old(sandboxes[n])) ==> calls == old(calls)
    {
      var s := sandboxes[n];
      assert sandboxes == sandboxes[n := s] && containers == containers[s.runtimeId := containers[s.runtimeId]];
      if s.priority <= 0 && !s.paused {
        calls := calls + 1;
        if f.pause(n) {
          containers := containers[s.runtimeId := containers[s.runtimeId].(paused := true)];
          sandboxes := sandboxes[n := s.(paused := true, scale := 0.0)];
        }
      }
    }

    /** The body of whichever loop. */
    method Visit(ph: Phase, n: Name, f: Faults)
      requires n in sandboxes && sandboxes[n].runtimeId in containers
      modifies this
      ensures var s := old(sandboxes[n]);
              var (s', c') := StepOne(cfg, ph, f, n, s, old(containers[s.runtimeId]));
              sandboxes == old(sandboxes)[n := s'] && containers == old(containers)[s.runtimeId := c']
      ensures Idle(ph, old(sandboxes[n])) ==> calls == old(calls)
    {
      hide StepOne, Idle;
      match ph
      case Expand => ExpandOne(n, f);
      case Shrink(target) => ShrinkOne(n, target, f);
      case PauseLow => PauseOne(n, f);
    }

    /** expandAll, shrinkByPriority or pauseLowPriority: visits the sandboxes in any order. */
    method Loop(ph: Phase, f: Faults)
      requires Wired(View())
      modifies this
      ensures Stepped(old(View()), View(), cfg, [ph], f, old(sandboxes.Keys)) && Wired(View())
      ensures AllIdle(ph, old(sandboxes)) ==> calls == old(calls)
    {
      hide StepAll, StepOne, Stepped, Idle, Wired;
      ghost var start := View();
      var rest := sandboxes.Keys;
      SteppedByNothing(start, cfg, [ph], f);
      assert start.sandboxes.Keys - rest == {};
      while rest != {}
        invariant rest <= start.sandboxes.Keys
        invariant Stepped(start, View(), cfg, [ph], f, start.sandboxes.Keys - rest)
        invariant AllIdle(ph, start.sandboxes) ==> calls == old(calls)
        decreases |rest|
      {
        var n :| n in rest;
        SteppedNext(start, View(), cfg, ph, f, start.sandboxes.Keys - rest, n);
        assert start.sandboxes.Keys - rest + {n} == start.sandboxes.Keys - (rest - {n});
        Visit(ph, n, f);
        rest := rest - {n};
      }
      assert start.sandboxes.Keys - rest == start.sandboxes.Keys;
      SteppedStaysWired(start, View(), cfg, ph, f, start.sandboxes.Keys);
    }

    /** A loop that leaves everything alone when there is nothing to do. */
    method LoopOnce(ph: Phase, f: Faults)
      requires Wired(View())
      modifies this
      ensures Stepped(old(View()), View(), cfg, [ph], f, old(sandboxes.Keys)) && Wired(View())
      ensures AllIdle(ph, old(sandboxes)) ==> View() == old(View()) && calls == old(calls)
    {
      hide AllIdle, StepAll;
      ghost var start := View();
      Loop(ph, f);
      if AllIdle(ph, start.sandboxes) {
        IdleChangesNothing(start, View(), cfg, ph, f);
      }
    }

    /** One tick; `host` is None when the host could not be asked. */
    method Reconcile(host: Option<Host>, f: Faults)
      requires Wired(View())
      modifies this
      ensures host.None? ==> View() == old(View()) && calls == old(calls)
      ensures host.Some? ==>
                Stepped(old(View()), View(), cfg, Phases(PressureOf(cfg, host.value)), f, old(sandboxes.Keys))
      ensures host.Some? && Settled(PressureOf(cfg, host.value), old(sandboxes)) ==>
                View() == old(View()) && calls == old(calls)
      ensures old(Valid()) ==> Valid()
    {
      hide Inv, Settled, Stepped, Wired, Phases;
      ghost var start := View();
      if host.None? {
        return;
      }
      var memory, cpu := MemoryPressure(cfg, host.value), CpuPressure(cfg, host.value);
      var pressure := memory;
      if cpu.Level() > pressure.Level() {
        pressure := cpu;
      }
      RunPhases(pressure, f);
      if Inv(cfg, start) {
        SteppedKeepsInv(cfg, start, pressure, f, View());
      }
    }

    /** The switch over the pressure. */
    method RunPhases(pressure: Pressure, f: Faults)
      requires Wired(View())
      modifies this
      ensures Stepped(old(View()), View(), cfg, Phases(pressure), f, old(sandboxes.Keys))
      ensures Settled(pressure, old(sandboxes)) ==> View() == old(View()) && calls == old(calls)
    {
      hide AllIdle, StepAll, Stepped, Wired;
      ghost var start := View();
      assert forall ph :: Settled(pressure, sandboxes) && ph in Phases(pressure) ==> AllIdle(ph, sandboxes);
      match pressure
      case Calm =>
        assert Expand in Phases(pressure);
        LoopOnce(Expand, f);
      case Normal =>
        SteppedByNoPhase(start, cfg, f);
      case High =>
        assert Shrink(0.5) in Phases(pressure);
        LoopOnce(Shrink(0.5), f);
      case Critical =>
        assert PauseLow in Phases(pressure) && Shrink(0.25) in Phases(pressure);
        LoopOnce(PauseLow, f);
        ghost var middle := View();
        LoopOnce(Shrink(0.25), f);
        SteppedThen(start, middle, View(), cfg, PauseLow, Shrink(0.25), f);
    }

    /** Ticks are taken from now on. */
    method Start()
      modifies this
      ensures running && View() == old(View()) && calls == old(calls)
    {
      running := true;
    }

    /** Everything gets its limits back, unless there was nothing to stop. */
    method Stop(f: Faults)
      requires Wired(View())
      modifies this
      ensures !running
      ensures !old(running) ==> View() == old(View()) && calls == old(calls)
      ensures old(running) ==> Stepped(old(View()), View(), cfg, [Expand], f, old(sandboxes.Keys))
      ensures old(Valid()) ==> Valid()
    {
      hide Inv, Stepped, Wired;
      if !running {
        return;
      }
      ghost var start := View();
      Loop(Expand, f);
      running := false;
      if Inv(cfg, start) {
        CalmPhases();
        SteppedKeepsInv(cfg, start, Calm, f, View());
      }
    }
  }
}
