/** Blueprints: inheritance through `extends` and the environment a sandbox ends up with. */
module Blueprints {
  import opened Wrappers

  datatype TypeMeta = TypeMeta(apiVersion: string, kind: string)
  datatype Metadata = Metadata(name: string, version: string)
  datatype Gpu = Gpu(count: int, driver: string)
  /** Amounts as they are written, before they are parsed. */
  datatype ResourceSpec = ResourceSpec(cpu: string, memory: string, disk: string, gpu: Option<Gpu>)
  datatype Toolchain = Toolchain(name: string, image: string)
  datatype Workspace = Workspace(mountPath: string, source: string, readOnly: bool)
  datatype Network = Network(expose: seq<int>, policy: string, allowDns: bool)
  datatype Device = Device(hostPath: string, containerPath: string, permissions: string, optional: bool)
  datatype ProbeConfig = ProbeConfig(kind: string, command: seq<string>, path: string, port: int)
  datatype Secret = Secret(name: string, source: string)

  datatype Spec = Spec(
    extends_: string, base: string, runtime: string, resources: ResourceSpec, env: map<string, string>,
    secrets: seq<Secret>, setup: seq<string>, toolchains: seq<Toolchain>, workspace: Workspace,
    network: Network, devices: seq<Device>, readinessProbe: Option<ProbeConfig>)

  datatype Blueprint = Blueprint(typeMeta: TypeMeta, metadata: Metadata, spec: Spec)

  const MAX_EXTENDS_DEPTH: nat := 5

  function Prefer(child: string, parent: string): string {
    if child != "" then child else parent
  }

  function PreferSome<T>(child: Option<T>, parent: Option<T>): Option<T> {
    if child.Some? then child else parent
  }

  /** A child's network counts only when it names a policy or exposes a port; allowDns alone does not. */
  predicate NetworkSet(n: Network) {
    n.policy != "" || n.expose != []
  }

  /** The child on top of the parent. */
  function Merge(parent: Blueprint, child: Blueprint): Blueprint {
    var p, c := parent.spec, child.spec;
    Blueprint(
      parent.typeMeta,
      child.metadata,
      Spec("",
           Prefer(c.base, p.base),
           Prefer(c.runtime, p.runtime),
           ResourceSpec(Prefer(c.resources.cpu, p.resources.cpu), Prefer(c.resources.memory, p.resources.memory),
                     Prefer(c.resources.disk, p.resources.disk), PreferSome(c.resources.gpu, p.resources.gpu)),
           p.env + c.env,
           p.secrets + c.secrets,
           p.setup + c.setup,
           p.toolchains + c.toolchains,
           if c.workspace.mountPath != "" then c.workspace else p.workspace,
           if NetworkSet(c.network) then c.network else p.network,
           p.devices + c.devices,
           PreferSome(c.readinessProbe, p.readinessProbe)))
  }

  /** `over` laid over `base`, but for the keys in `rest`. */
  function Laid(base: map<string, string>, over: map<string, string>, rest: set<string>): map<string, string> {
    base + (over - rest)
  }

  lemma LaidNext(base: map<string, string>, over: map<string, string>, rest: set<string>, k: string)
    requires k in rest && k in over
    ensures Laid(base, over, rest - {k}) == Laid(base, over, rest)[k := over[k]]
  {
  }

  lemma LaidEnds(base: map<string, string>, over: map<string, string>)
    ensures Laid(base, over, over.Keys) == base && Laid(base, over, {}) == base + over
  {
    assert over - {} == over && over - over.Keys == map[];
  }

  /** The map update loop of the environment. */
  method Overlay(base: map<string, string>, over: map<string, string>) returns (r: map<string, string>)
    ensures r == base + over
  {
    LaidEnds(base, over);
    hide Laid;
    r := base;
    var rest := over.Keys;
    while rest != {}
      invariant rest <= over.Keys && r == Laid(base, over, rest)
      decreases |rest|
    {
      var k :| k in rest;
      LaidNext(base, over, rest, k);
      r := r[k := over[k]];
      rest := rest - {k};
    }
  }

  method MergeResources(parent: ResourceSpec, child: ResourceSpec) returns (r: ResourceSpec)
    ensures r == ResourceSpec(Prefer(child.cpu, parent.cpu), Prefer(child.memory, parent.memory),
                           Prefer(child.disk, parent.disk), PreferSome(child.gpu, parent.gpu))
  {
    r := parent;
    if child.cpu != "" { r := r.(cpu := child.cpu); }
    if child.memory != "" { r := r.(memory := child.memory); }
    if child.disk != "" { r := r.(disk := child.disk); }
    if child.gpu.Some? { r := r.(gpu := child.gpu); }
  }

  /** A child's list is appended, and an empty one changes nothing. */
  method AppendIfAny<T>(parent: seq<T>, child: seq<T>) returns (r: seq<T>)
    ensures r == parent + child
  {
    r := parent;
    if |child| > 0 { r := r + child; }
  }

  /** mergeBlueprints as it is written: the parent's fields, overridden one by one. */
  method MergeBlueprints(parent: Blueprint, child: Blueprint) returns (result: Blueprint)
    ensures result == Merge(parent, child)
  {
    var p, c := parent.spec, child.spec;
    var base, runtime, workspace, network, probe := p.base, p.runtime, p.workspace, p.network, p.readinessProbe;
    if c.base != "" { base := c.base; }
    if c.runtime != "" { runtime := c.runtime; }
    var resources := MergeResources(p.resources, c.resources);
    var setup := AppendIfAny(p.setup, c.setup);
    var toolchains := AppendIfAny(p.toolchains, c.toolchains);
    if c.workspace.mountPath != "" { workspace := c.workspace; }
    if c.network.policy != "" || |c.network.expose| > 0 { network := c.network; }
    var devices := AppendIfAny(p.devices, c.devices);
    if c.readinessProbe.Some? { probe := c.readinessProbe; }
    var env := Overlay(p.env, c.env);
    var secrets := AppendIfAny(p.secrets, c.secrets);
    result := Blueprint(parent.typeMeta, child.metadata,
                        Spec("", base, runtime, resources, env, secrets, setup, toolchains, workspace, network, devices, probe));
  }

  /** Inheritance does not depend on how a chain is grouped. */
  lemma MergeAssociative(a: Blueprint, b: Blueprint, c: Blueprint)
    ensures Merge(Merge(a, b), c) == Merge(a, Merge(b, c))
  {
    assert a.spec.env + b.spec.env + c.spec.env == a.spec.env + (b.spec.env + c.spec.env);
    assert a.spec.secrets + b.spec.secrets + c.spec.secrets == a.spec.secrets + (b.spec.secrets + c.spec.secrets);
    assert a.spec.setup + b.spec.setup + c.spec.setup == a.spec.setup + (b.spec.setup + c.spec.setup);
    assert a.spec.toolchains + b.spec.toolchains + c.spec.toolchains
        == a.spec.toolchains + (b.spec.toolchains + c.spec.toolchains);
    assert a.spec.devices + b.spec.devices + c.spec.devices == a.spec.devices + (b.spec.devices + c.spec.devices);
  }

  // ---- A whole chain, root first ----

  function MergeChain(chain: seq<Blueprint>): Blueprint
    requires chain != []
  {
    if |chain| == 1 then chain[0] else Merge(MergeChain(chain[..|chain| - 1]), chain[|chain| - 1])
  }

  /** The i-th blueprint is the one nearest to the leaf that sets the field. */
  predicate SetLast(chain: seq<Blueprint>, isSet: Blueprint -> bool, i: nat) {
    i < |chain| && isSet(chain[i]) && forall j :: i < j < |chain| ==> !isSet(chain[j])
  }

  predicate NeverSet(chain: seq<Blueprint>, isSet: Blueprint -> bool) {
    forall j :: 0 <= j < |chain| ==> !isSet(chain[j])
  }

  /** `value` comes from the blueprint nearest to the leaf that sets it, or from the root if none does. */
  ghost predicate FromNearest<T>(chain: seq<Blueprint>, get: Blueprint -> T, isSet: Blueprint -> bool, value: T)
    requires chain != []
  {
    && (NeverSet(chain, isSet) ==> value == get(chain[0]))
    && forall i: nat :: SetLast(chain, isSet, i) ==> value == get(chain[i])
  }

  /** The lists of a chain one after the other, root first. */
  function Concat<T>(chain: seq<Blueprint>, get: Blueprint -> seq<T>): seq<T> {
    if chain == [] then [] else Concat(chain[..|chain| - 1], get) + get(chain[|chain| - 1])
  }

  /** The environments of a chain laid over each other, root first. */
  function OverlayAll(chain: seq<Blueprint>): map<string, string> {
    if chain == [] then map[] else OverlayAll(chain[..|chain| - 1]) + chain[|chain| - 1].spec.env
  }

  lemma SetInInit(chain: seq<Blueprint>, isSet: Blueprint -> bool, i: nat)
    requires |chain| > 1 && !isSet(chain[|chain| - 1])
    ensures NeverSet(chain, isSet) ==> NeverSet(chain[..|chain| - 1], isSet)
    ensures SetLast(chain, isSet, i) ==> SetLast(chain[..|chain| - 1], isSet, i)
  {
  }

  lemma FromNearestStep<T>(
    chain: seq<Blueprint>, get: Blueprint -> T, isSet: Blueprint -> bool, before: T, value: T)
    requires |chain| > 1 && FromNearest(chain[..|chain| - 1], get, isSet, before)
    requires value == if isSet(chain[|chain| - 1]) then get(chain[|chain| - 1]) else before
    ensures FromNearest(chain, get, isSet, value)
  {
    var init, last := chain[..|chain| - 1], |chain| - 1;
    if isSet(chain[last]) {
      assert forall i: nat :: SetLast(chain, isSet, i) ==> i == last;
    } else {
      SetInInit(chain, isSet, 0);
      forall i: nat | SetLast(chain, isSet, i)
        ensures value == get(chain[i])
      {
        SetInInit(chain, isSet, i);
        assert init[i] == chain[i];
      }
    }
  }

  /** The scalar fields of a resolved chain, each by name. */
  ghost predicate ScalarsNearest(chain: seq<Blueprint>, r: Blueprint)
    requires chain != []
  {
    && FromNearest(chain, (b: Blueprint) => b.spec.base, (b: Blueprint) => b.spec.base != "", r.spec.base)
    && FromNearest(chain, (b: Blueprint) => b.spec.runtime, (b: Blueprint) => b.spec.runtime != "", r.spec.runtime)
    && FromNearest(chain, (b: Blueprint) => b.spec.resources.cpu, (b: Blueprint) => b.spec.resources.cpu != "",
                   r.spec.resources.cpu)
    && FromNearest(chain, (b: Blueprint) => b.spec.resources.memory, (b: Blueprint) => b.spec.resources.memory != "",
                   r.spec.resources.memory)
    && FromNearest(chain, (b: Blueprint) => b.spec.resources.disk, (b: Blueprint) => b.spec.resources.disk != "",
                   r.spec.resources.disk)
  }

  /** The structured fields that are replaced as a whole. */
  ghost predicate StructsNearest(chain: seq<Blueprint>, r: Blueprint)
    requires chain != []
  {
    && FromNearest(chain, (b: Blueprint) => b.spec.resources.gpu, (b: Blueprint) => b.spec.resources.gpu.Some?,
                   r.spec.resources.gpu)
    && FromNearest(chain, (b: Blueprint) => b.spec.workspace, (b: Blueprint) => b.spec.workspace.mountPath != "",
                   r.spec.workspace)
    && FromNearest(chain, (b: Blueprint) => b.spec.network,
                   (b: Blueprint) => b.spec.network.policy != "" || b.spec.network.expose != [], r.spec.network)
    && FromNearest(chain, (b: Blueprint) => b.spec.readinessProbe, (b: Blueprint) => b.spec.readinessProbe.Some?,
                   r.spec.readinessProbe)
  }

  ghost predicate ListsConcatenated(chain: seq<Blueprint>, r: Blueprint) {
    && r.spec.secrets == Concat(chain, (b: Blueprint) => b.spec.secrets)
    && r.spec.setup == Concat(chain, (b: Blueprint) => b.spec.setup)
    && r.spec.toolchains == Concat(chain, (b: Blueprint) => b.spec.toolchains)
    && r.spec.devices == Concat(chain, (b: Blueprint) => b.spec.devices)
  }

  lemma {:induction false} ChainScalars(chain: seq<Blueprint>)
    requires chain != []
    ensures ScalarsNearest(chain, MergeChain(chain))
    decreases |chain|
  {
    if |chain| > 1 {
      ChainScalars(chain[..|chain| - 1]);
      var p, r := MergeChain(chain[..|chain| - 1]), MergeChain(chain);
      assert r == Merge(p, chain[|chain| - 1]);
      hide MergeChain, FromNearest;
      FromNearestStep(chain, (b: Blueprint) => b.spec.base, (b: Blueprint) => b.spec.base != "", p.spec.base, r.spec.base);
      FromNearestStep(chain, (b: Blueprint) => b.spec.runtime, (b: Blueprint) => b.spec.runtime != "",
                      p.spec.runtime, r.spec.runtime);
      FromNearestStep(chain, (b: Blueprint) => b.spec.resources.cpu, (b: Blueprint) => b.spec.resources.cpu != "",
                      p.spec.resources.cpu, r.spec.resources.cpu);
      FromNearestStep(chain, (b: Blueprint) => b.spec.resources.memory, (b: Blueprint) => b.spec.resources.memory != "",
                      p.spec.resources.memory, r.spec.resources.memory);
      FromNearestStep(chain, (b: Blueprint) => b.spec.resources.disk, (b: Blueprint) => b.spec.resources.disk != "",
                      p.spec.resources.disk, r.spec.resources.disk);
    }
  }

  lemma {:induction false} ChainStructs(chain: seq<Blueprint>)
    requires chain != []
    ensures StructsNearest(chain, MergeChain(chain))
    decreases |chain|
  {
    if |chain| > 1 {
      ChainStructs(chain[..|chain| - 1]);
      var p, r := MergeChain(chain[..|chain| - 1]), MergeChain(chain);
      assert r == Merge(p, chain[|chain| - 1]);
      hide MergeChain, FromNearest;
      FromNearestStep(chain, (b: Blueprint) => b.spec.resources.gpu, (b: Blueprint) => b.spec.resources.gpu.Some?,
                      p.spec.resources.gpu, r.spec.resources.gpu);
      FromNearestStep(chain, (b: Blueprint) => b.spec.workspace, (b: Blueprint) => b.spec.workspace.mountPath != "",
                      p.spec.workspace, r.spec.workspace);
      FromNearestStep(chain, (b: Blueprint) => b.spec.network,
                      (b: Blueprint) => b.spec.network.policy != "" || b.spec.network.expose != [],
                      p.spec.network, r.spec.network);
      FromNearestStep(chain, (b: Blueprint) => b.spec.readinessProbe, (b: Blueprint) => b.spec.readinessProbe.Some?,
                      p.spec.readinessProbe, r.spec.readinessProbe);
    }
  }

  lemma {:induction false} ChainLists(chain: seq<Blueprint>)
    requires chain != []
    ensures ListsConcatenated(chain, MergeChain(chain)) && MergeChain(chain).spec.env == OverlayAll(chain)
    decreases |chain|
  {
    if |chain| == 1 {
      assert chain[..0] == [];
    } else {
      ChainLists(chain[..|chain| - 1]);
    }
  }

  /** The whole closed form of inheritance. */
  lemma ChainClosedForm(chain: seq<Blueprint>)
    requires chain != []
    ensures var r := MergeChain(chain);
            && r.typeMeta == chain[0].typeMeta && r.metadata == chain[|chain| - 1].metadata
            && r.spec.extends_ == (if |chain| == 1 then chain[0].spec.extends_ else "")
            && ScalarsNearest(chain, r) && StructsNearest(chain, r)
            && ListsConcatenated(chain, r) && r.spec.env == OverlayAll(chain)
  {
    ChainScalars(chain);
    ChainStructs(chain);
    ChainLists(chain);
    hide ScalarsNearest, StructsNearest, ListsConcatenated, OverlayAll;
    ChainMeta(chain);
  }

  lemma {:induction false} ChainMeta(chain: seq<Blueprint>)
    requires chain != []
    ensures MergeChain(chain).typeMeta == chain[0].typeMeta
    ensures MergeChain(chain).metadata == chain[|chain| - 1].metadata
    decreases |chain|
  {
    if |chain| > 1 {
      ChainMeta(chain[..|chain| - 1]);
    }
  }

  // ---- Resolving `extends` over a file system ----

  /** What is on disk: an absent path cannot be read, a path mapped to None is not valid YAML. `valid` is the
      path check and `resolve` joins a child's directory with the path it extends. */
  datatype Disk = Disk(files: map<string, Option<Blueprint>>, valid: string -> bool, resolve: (string, string) -> string)

  predicate Readable(d: Disk, path: string) {
    d.valid(path) && path in d.files && d.files[path].Some?
  }

  /** The file `path` points to by `extends`. */
  function ParentPath(d: Disk, path: string): string
    requires Readable(d, path)
  {
    d.resolve(path, d.files[path].value.spec.extends_)
  }

  function Parse(d: Disk, path: string, depth: nat): Option<Blueprint>
    requires depth <= MAX_EXTENDS_DEPTH
    decreases MAX_EXTENDS_DEPTH - depth
  {
    if !Readable(d, path) then None
    else
      var bp := d.files[path].value;
      if bp.spec.extends_ == "" then Some(bp)
      else if depth >= MAX_EXTENDS_DEPTH then None
      else
        match Parse(d, ParentPath(d, path), depth + 1)
        case None => None
        case Some(parent) => Some(Merge(parent, bp))
  }

  /** Only a file at an allowed path that can be read and is valid YAML is parsed; without extends it is the result. */
  lemma ParseOneFile(d: Disk, path: string, depth: nat)
    requires depth <= MAX_EXTENDS_DEPTH
    ensures Parse(d, path, depth).Some? ==> d.valid(path) && path in d.files && d.files[path].Some?
    ensures d.valid(path) && path in d.files && d.files[path].Some? && d.files[path].value.spec.extends_ == "" ==>
              Parse(d, path, depth) == d.files[path]
  {
    hide Merge;
  }

  /** Exactly n parent links lead from `path`, through readable files, to one that extends nothing. */
  predicate RootAfter(d: Disk, path: string, n: nat)
    decreases n
  {
    && Readable(d, path)
    && if n == 0 then d.files[path].value.spec.extends_ == ""
       else d.files[path].value.spec.extends_ != "" && RootAfter(d, ParentPath(d, path), n - 1)
  }

  /** The blueprints along those links, root first. */
  function ChainTo(d: Disk, path: string, n: nat): (chain: seq<Blueprint>)
    requires RootAfter(d, path, n)
    ensures |chain| == n + 1
    decreases n
  {
    if n == 0 then [d.files[path].value]
    else ChainTo(d, ParentPath(d, path), n - 1) + [d.files[path].value]
  }

  lemma {:induction false} ParseAlongChain(d: Disk, path: string, n: nat, depth: nat)
    requires depth + n <= MAX_EXTENDS_DEPTH && RootAfter(d, path, n)
    ensures Parse(d, path, depth) == Some(MergeChain(ChainTo(d, path, n)))
    decreases n
  {
    hide Merge;
    if n > 0 {
      ParseAlongChain(d, ParentPath(d, path), n - 1, depth + 1);
      var above := ChainTo(d, ParentPath(d, path), n - 1);
      assert ChainTo(d, path, n)[..n] == above;
    }
  }

  lemma {:induction false} ParseNeedsChain(d: Disk, path: string, depth: nat) returns (n: nat)
    requires depth <= MAX_EXTENDS_DEPTH && Parse(d, path, depth).Some?
    ensures depth + n <= MAX_EXTENDS_DEPTH && RootAfter(d, path, n)
    decreases MAX_EXTENDS_DEPTH - depth
  {
    hide Merge;
    n := 0;
    if d.files[path].value.spec.extends_ != "" {
      var above := ParseNeedsChain(d, ParentPath(d, path), depth + 1);
      n := above + 1;
    }
  }

  /** ParseFile succeeds exactly when a root is at most five links away, and then gives the merged chain. */
  lemma ParseFileIffChain(d: Disk, path: string)
    ensures Parse(d, path, 0).Some? <==> exists n: nat :: n <= 5 && RootAfter(d, path, n)
    ensures forall n: nat :: n <= 5 && RootAfter(d, path, n) ==>
              Parse(d, path, 0) == Some(MergeChain(ChainTo(d, path, n)))
  {
    hide Parse;
    forall n: nat | n <= MAX_EXTENDS_DEPTH && RootAfter(d, path, n)
      ensures Parse(d, path, 0) == Some(MergeChain(ChainTo(d, path, n)))
    {
      ParseAlongChain(d, path, n, 0);
    }
    if Parse(d, path, 0).Some? {
      var n := ParseNeedsChain(d, path, 0);
      assert n <= MAX_EXTENDS_DEPTH && RootAfter(d, path, n);
    }
  }

  /** From `path`, n parent links lead to `ancestor`. */
  predicate LeadsTo(d: Disk, path: string, ancestor: string, n: nat)
    decreases n
  {
    if n == 0 then path == ancestor
    else Readable(d, path) && d.files[path].value.spec.extends_ != "" && LeadsTo(d, ParentPath(d, path), ancestor, n - 1)
  }

  lemma {:induction false} RootIsUnique(d: Disk, path: string, m: nat, n: nat)
    requires RootAfter(d, path, m) && RootAfter(d, path, n)
    ensures m == n
    decreases m
  {
    if m > 0 && n > 0 {
      RootIsUnique(d, ParentPath(d, path), m - 1, n - 1);
    }
  }

  lemma {:induction false} RootFromAncestor(d: Disk, path: string, ancestor: string, k: nat, n: nat)
    requires LeadsTo(d, path, ancestor, k) && RootAfter(d, path, n)
    ensures k <= n && RootAfter(d, ancestor, n - k)
    decreases k
  {
    if k > 0 {
      RootFromAncestor(d, ParentPath(d, path), ancestor, k - 1, n - 1);
    }
  }

  /** Parsing terminates on every file graph; when the links run into a cycle it reports an error. */
  lemma CyclesAreErrors(d: Disk, path: string, node: string, before: nat, around: nat)
    requires LeadsTo(d, path, node, before) && around > 0 && LeadsTo(d, node, node, around)
    ensures Parse(d, path, 0).None?
  {
    hide Parse, RootAfter, LeadsTo;
    if Parse(d, path, 0).Some? {
      var n := ParseNeedsChain(d, path, 0);
      RootFromAncestor(d, path, node, before, n);
      RootFromAncestor(d, node, node, around, n - before);
      RootIsUnique(d, node, n - before, n - before - around);
    }
  }

  // ---- The environment of a sandbox ----

  /** Where secrets are read from: host variables, files, and the trimming of file contents. */
  datatype Host = Host(getenv: string -> string, readFile: string -> Option<string>, trim: string -> string)

  function SecretValue(h: Host, source: string): string {
    if "env:" <= source then h.getenv(source[4..])
    else if "file:" <= source then
      match h.readFile(source[5..])
      case Some(data) => h.trim(data)
      case None => ""
    else source
  }

  /** The three kinds of sources: a host variable, a file (trimmed, or empty if it cannot be read), or the value itself. */
  lemma SecretSources(h: Host, rest: string, literal: string)
    requires !("env:" <= literal) && !("file:" <= literal)
    ensures SecretValue(h, "env:" + rest) == h.getenv(rest)
    ensures SecretValue(h, "file:" + rest) == if h.readFile(rest).Some? then h.trim(h.readFile(rest).value) else ""
    ensures SecretValue(h, literal) == literal
  {
    assert ("env:" + rest)[4..] == rest && ("file:" + rest)[5..] == rest;
    assert ("file:" + rest)[0] == 'f';
  }

  /** The value of the last secret with this name. */
  function LastSecret(h: Host, secrets: seq<Secret>, name: string): Option<string> {
    if secrets == [] then None
    else if secrets[|secrets| - 1].name == name then Some(SecretValue(h, secrets[|secrets| - 1].source))
    else LastSecret(h, secrets[..|secrets| - 1], name)
  }

  method ResolveSecrets(h: Host, secrets: seq<Secret>) returns (r: map<string, string>)
    ensures forall name :: (name in r <==> LastSecret(h, secrets, name).Some?)
    ensures forall name :: name in r ==> LastSecret(h, secrets, name) == Some(r[name])
  {
    r := map[];
    var i := 0;
    while i < |secrets|
      invariant 0 <= i <= |secrets|
      invariant forall name :: (name in r <==> LastSecret(h, secrets[..i], name).Some?)
      invariant forall name :: name in r ==> LastSecret(h, secrets[..i], name) == Some(r[name])
    {
      assert secrets[..i + 1][..i] == secrets[..i];
      r := r[secrets[i].name := SecretValue(h, secrets[i].source)];
      i := i + 1;
    }
    assert secrets[..i] == secrets;
  }

  /** The value nearest to the leaf that some blueprint of the chain gives a variable. */
  function NearestEnv(chain: seq<Blueprint>, name: string): Option<string> {
    if chain == [] then None
    else if name in chain[|chain| - 1].spec.env then Some(chain[|chain| - 1].spec.env[name])
    else NearestEnv(chain[..|chain| - 1], name)
  }

  lemma {:induction false} OverlayIsNearest(chain: seq<Blueprint>, name: string)
    ensures name in OverlayAll(chain) <==> NearestEnv(chain, name).Some?
    ensures name in OverlayAll(chain) ==> NearestEnv(chain, name) == Some(OverlayAll(chain)[name])
    decreases |chain|
  {
    if chain != [] {
      OverlayIsNearest(chain[..|chain| - 1], name);
    }
  }

  lemma {:induction false} NoSecretIff(h: Host, secrets: seq<Secret>, name: string)
    ensures LastSecret(h, secrets, name).None? <==> forall i :: 0 <= i < |secrets| ==> secrets[i].name != name
    decreases |secrets|
  {
    hide SecretValue;
    if secrets != [] {
      NoSecretIff(h, secrets[..|secrets| - 1], name);
    }
  }

  lemma {:induction false} LastSecretIsLast(h: Host, secrets: seq<Secret>, name: string, i: nat)
    requires i < |secrets| && secrets[i].name == name && forall j :: i < j < |secrets| ==> secrets[j].name != name
    ensures LastSecret(h, secrets, name) == Some(SecretValue(h, secrets[i].source))
    decreases |secrets|
  {
    hide SecretValue;
    if i < |secrets| - 1 {
      LastSecretIsLast(h, secrets[..|secrets| - 1], name, i);
    }
  }

  lemma {:induction false} NoEnvIff(chain: seq<Blueprint>, name: string)
    ensures NearestEnv(chain, name).None? <==> forall i :: 0 <= i < |chain| ==> name !in chain[i].spec.env
    decreases |chain|
  {
    if chain != [] {
      NoEnvIff(chain[..|chain| - 1], name);
    }
  }

  lemma {:induction false} NearestEnvIsNearest(chain: seq<Blueprint>, name: string, i: nat)
    requires i < |chain| && name in chain[i].spec.env && forall j :: i < j < |chain| ==> name !in chain[j].spec.env
    ensures NearestEnv(chain, name) == Some(chain[i].spec.env[name])
    decreases |chain|
  {
    if i < |chain| - 1 {
      NearestEnvIsNearest(chain[..|chain| - 1], name, i);
    }
  }

  /** No entry of the list after the i-th bears the name, and the i-th does. */
  predicate LastNamed(secrets: seq<Secret>, name: string, i: nat) {
    i < |secrets| && secrets[i].name == name && forall j :: i < j < |secrets| ==> secrets[j].name != name
  }

  predicate NearestSet(chain: seq<Blueprint>, name: string, i: nat) {
    i < |chain| && name in chain[i].spec.env && forall j :: i < j < |chain| ==> name !in chain[j].spec.env
  }

  /** The layers of an environment, by position: an option wins; else the last secret of the resolved chain with that
      name; else the blueprint nearest to the leaf that sets it; and nothing else is set. */
  lemma EnvironmentLayers(h: Host, chain: seq<Blueprint>, options: map<string, string>, name: string, i: nat)
    requires chain != []
    ensures var secrets := Concat(chain, (b: Blueprint) => b.spec.secrets);
            var secret := exists j :: 0 <= j < |secrets| && secrets[j].name == name;
            var value := Effective(h, chain, options, name);
            && (name in options ==> value == Some(options[name]))
            && (name !in options && LastNamed(secrets, name, i) ==> value == Some(SecretValue(h, secrets[i].source)))
            && (name !in options && !secret && NearestSet(chain, name, i) ==> value == Some(chain[i].spec.env[name]))
            && (value.None? <==> name !in options && !secret && forall j :: 0 <= j < |chain| ==> name !in chain[j].spec.env)
  {
    ChainLists(chain);
    var secrets := MergeChain(chain).spec.secrets;
    assert secrets == Concat(chain, (b: Blueprint) => b.spec.secrets);
    hide MergeChain, ListsConcatenated, Concat, OverlayAll, LastSecret, NearestEnv, SecretValue;
    NoSecretIff(h, secrets, name);
    NoEnvIff(chain, name);
    if LastNamed(secrets, name, i) {
      LastSecretIsLast(h, secrets, name, i);
    }
    if NearestSet(chain, name, i) {
      NearestEnvIsNearest(chain, name, i);
    }
  }

  /** What a variable is worth in the sandbox: the caller's option, else the last secret, else the nearest blueprint. */
  function Effective(h: Host, chain: seq<Blueprint>, options: map<string, string>, name: string): Option<string>
    requires chain != []
  {
    if name in options then Some(options[name])
    else
      var secret := LastSecret(h, MergeChain(chain).spec.secrets, name);
      if secret.Some? then secret else NearestEnv(chain, name)
  }

  /** The environment Create builds for a blueprint that was resolved from `chain`. */
  method BuildEnv(h: Host, ghost chain: seq<Blueprint>, bp: Blueprint, options: map<string, string>)
    returns (env: map<string, string>)
    requires chain != [] && bp == MergeChain(chain)
    ensures forall name :: name in env <==> Effective(h, chain, options, name).Some?
    ensures forall name :: name in env ==> Effective(h, chain, options, name) == Some(env[name])
  {
    hide MergeChain, LastSecret, NearestEnv, OverlayAll;
    env := Overlay(map[], bp.spec.env);
    var secrets := ResolveSecrets(h, bp.spec.secrets);
    env := Overlay(env, secrets);
    env := Overlay(env, options);
    ChainLists(chain);
    assert env == bp.spec.env + secrets + options;
    hide ListsConcatenated;
    forall name: string
      ensures name in env <==> Effective(h, chain, options, name).Some?
      ensures name in env ==> Effective(h, chain, options, name) == Some(env[name])
    {
      OverlayIsNearest(chain, name);
    }
  }
}
