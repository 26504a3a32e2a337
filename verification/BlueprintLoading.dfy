/** From a resolved blueprint to what the controller asks the quota manager for. */
module BlueprintLoading {
  import opened Wrappers
  import opened Records
  import opened Lifecycle
  import B = Blueprints

  /** The parsers of processor shares and of sizes; None is a parse error. */
  datatype Parsers = Parsers(cpu: string -> Option<int>, size: string -> Option<int>)

  function AmountFrom(text: string, parse: string -> Option<int>): Amount {
    if text == "" then Unset
    else match parse(text)
      case Some(value) => Units(value)
      case None => Malformed
  }

  function Measure(spec: B.ResourceSpec, p: Parsers): Resources {
    Resources(AmountFrom(spec.cpu, p.cpu), AmountFrom(spec.memory, p.size), AmountFrom(spec.disk, p.size),
              if spec.gpu.Some? then spec.gpu.value.count else 0)
  }

  function InfoOf(bp: B.Blueprint, p: Parsers): BlueprintInfo {
    BlueprintInfo(Measure(bp.spec.resources, p), bp.spec.readinessProbe.Some?)
  }

  /** The blueprint files the controller can use: those that parse and pass validation. */
  function Usable(d: B.Disk, accepts: B.Blueprint -> bool, p: Parsers): map<string, BlueprintInfo> {
    map path | path in d.files && B.Parse(d, path, 0).Some? && accepts(B.Parse(d, path, 0).value) ::
      InfoOf(B.Parse(d, path, 0).value, p)
  }

  /** `amount` is what `parse` makes of the text: the number, or unreadable. */
  predicate ReadAs(amount: Amount, text: string, parse: string -> Option<int>) {
    match parse(text)
    case Some(value) => amount == Units(value)
    case None => amount == Malformed
  }

  /** A sandbox is charged for the amount nearest to the leaf of its blueprint's chain. */
  lemma ChargedForNearest(chain: seq<B.Blueprint>, p: Parsers, i: nat)
    requires chain != []
    ensures var req := RequestFor(InfoOf(B.MergeChain(chain), p));
            && req.sandboxes == 1 && req.matrices == 0 && req.sessions == 0
            && (B.SetLast(chain, (b: B.Blueprint) => b.spec.resources.cpu != "", i) ==>
                  ReadAs(req.cpu, chain[i].spec.resources.cpu, p.cpu))
            && (B.SetLast(chain, (b: B.Blueprint) => b.spec.resources.memory != "", i) ==>
                  ReadAs(req.memory, chain[i].spec.resources.memory, p.size))
            && (B.SetLast(chain, (b: B.Blueprint) => b.spec.resources.disk != "", i) ==>
                  ReadAs(req.disk, chain[i].spec.resources.disk, p.size))
            && (B.SetLast(chain, (b: B.Blueprint) => b.spec.resources.gpu.Some?, i) ==>
                  req.gpus == chain[i].spec.resources.gpu.value.count)
  {
    hide B.MergeChain;
    B.ChainScalars(chain);
    B.ChainStructs(chain);
  }

  /** And not for what the chain never sets. */
  lemma NotChargedForUnset(chain: seq<B.Blueprint>, p: Parsers)
    requires chain != []
    ensures var req := RequestFor(InfoOf(B.MergeChain(chain), p));
            && (B.NeverSet(chain, (b: B.Blueprint) => b.spec.resources.cpu != "") ==> req.cpu == Unset)
            && (B.NeverSet(chain, (b: B.Blueprint) => b.spec.resources.memory != "") ==> req.memory == Unset)
            && (B.NeverSet(chain, (b: B.Blueprint) => b.spec.resources.disk != "") ==> req.disk == Unset)
            && (B.NeverSet(chain, (b: B.Blueprint) => b.spec.resources.gpu.Some?) ==> req.gpus == 0)
  {
    hide B.MergeChain;
    B.ChainScalars(chain);
    B.ChainStructs(chain);
  }

  /** The record that Create saves for a file is charged for what the resolved chain of that file asks for. */
  lemma DraftIsFromChain(w: World, req: CreateRequest, d: B.Disk, accepts: B.Blueprint -> bool, p: Parsers, n: nat)
    requires w.env.blueprints == Usable(d, accepts, p) && Admission(w, req) == Ok
    requires n <= B.MAX_EXTENDS_DEPTH && B.RootAfter(d, req.blueprint, n)
    ensures Draft(w, req).resources == Measure(B.MergeChain(B.ChainTo(d, req.blueprint, n)).spec.resources, p)
  {
    B.ParseFileIffChain(d, req.blueprint);
    hide B.MergeChain, B.Parse, B.ChainTo;
  }

  /** The sandbox is probed if and only if some blueprint of the chain has a probe. */
  lemma {:induction false} ProbedIff(chain: seq<B.Blueprint>, p: Parsers)
    requires chain != []
    ensures InfoOf(B.MergeChain(chain), p).hasProbe <==> exists i :: 0 <= i < |chain| && chain[i].spec.readinessProbe.Some?
    decreases |chain|
  {
    var last := |chain| - 1;
    if last > 0 {
      var init := chain[..last];
      ProbedIff(init, p);
      assert B.MergeChain(chain) == B.Merge(B.MergeChain(init), chain[last]);
      hide B.MergeChain, Measure;
      assert forall i :: 0 <= i < last ==> init[i] == chain[i];
      assert (exists i :: 0 <= i < |chain| && chain[i].spec.readinessProbe.Some?) <==>
             chain[last].spec.readinessProbe.Some? || exists i :: 0 <= i < |init| && init[i].spec.readinessProbe.Some?;
    }
  }

  /** A new name is refused for its blueprint if and only if the file's chain does not end within five links, or the
      resolved blueprint does not pass validation. */
  lemma InvalidBlueprintIff(w: World, req: CreateRequest, d: B.Disk, accepts: B.Blueprint -> bool, p: Parsers)
    requires w.env.blueprints == Usable(d, accepts, p) && req.name !in w.store
    ensures Admission(w, req) != InvalidBlueprint <==>
              exists n: nat :: n <= 5 && B.RootAfter(d, req.blueprint, n)
                               && accepts(B.MergeChain(B.ChainTo(d, req.blueprint, n)))
  {
    B.ParseFileIffChain(d, req.blueprint);
    B.ParseOneFile(d, req.blueprint, 0);
    hide B.MergeChain, B.Parse, B.ChainTo, B.RootAfter, InfoOf;
    assert Admission(w, req) != InvalidBlueprint <==> req.blueprint in w.env.blueprints;
  }
}
