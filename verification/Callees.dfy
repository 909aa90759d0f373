/** Which functions a call is resolved to, in the terms of the compiler's queries. */
module Callees {
  import opened Options
  import opened Types
  import opened TrackedTypes
  import opened GenericExtraction
  import opened Mir
  import opened Domains
  import opened CollectorDomains
  import opened ClosureStorage
  import opened Resolution

  // ---------------------------------------------------------------------------------------
  // What one candidate is run as

  /** Of an argument the declared type is used if there is one for each argument and it hides nothing. */
  predicate TakesArgument(passed: seq<TrackedTy>, declared: seq<Ty>, k: nat, t: TrackedTy)
    requires k < |passed|
  {
    if |declared| == |passed| && !ContainsErased(declared[k]) then t == Present(declared[k]) else t == passed[k]
  }

  predicate TakesArguments(passed: seq<TrackedTy>, declared: seq<Ty>, tracked: seq<TrackedTy>) {
    |tracked| == |passed| && forall k | 0 <= k < |passed| :: TakesArgument(passed, declared, k, tracked[k])
  }

  /** The callee at the end of a call that passes `args`, where the candidate `i` is no closure: the instance, with
      the caller's type arguments substituted in its own. */
  ghost predicate RunsFunction(tcx: Tcx, caller: PartialFunction, i: Instance, args: seq<TrackedTy>, g: PartialFunction) {
    && g.RegularFunction? && !tcx.isClosure(i.did)
    && g.instance.kind == i.kind && g.instance.did == i.did && g.instance.args == SubstAll(i.args, caller.instance.args)
    && TakesArguments(args, tcx.inputsOf(i), g.trackedArgs)
  }

  /** The declared arguments of a closure: itself by reference, and the fields of its one input, a tuple; if that
      hides something, its fields are not told apart. */
  function ClosureInputs(self: Ty, input: Ty): seq<Ty> {
    [Ty(Ref(false), [ERASED, self])] + if ContainsErased(input) then [input] else input.args
  }

  /** Where the candidate `i` is a closure: what the closure storage holds for it is resolved. */
  ghost predicate RunsClosure(tcx: Tcx, i: Instance, args: seq<TrackedTy>, closures: Closures, g: PartialFunction) {
    && g.ClosureFunction? && tcx.isClosure(i.did) && i.did in closures && g.info == closures[i.did]
    && g.info.withSubsts.head.Closure?
    && tcx.resolve(g.info.withSubsts.head.did, g.info.withSubsts.args) == Some(g.instance)
    && |args| >= 2 && SpreadTuple(args[1]).Some? && |tcx.inputsOf(i)| == 1
    && TakesArguments([args[0]] + SpreadTuple(args[1]).value, ClosureInputs(tcx.typeOf(i), tcx.inputsOf(i)[0]), g.trackedArgs)
  }

  /** `g` is what is run if the candidate is. */
  ghost predicate RunsAs(tcx: Tcx, caller: PartialFunction, i: Instance, args: seq<TrackedTy>, closures: Closures, g: PartialFunction) {
    RunsFunction(tcx, caller, i, args, g) || RunsClosure(tcx, i, args, closures, g)
  }

  /** A closure that has no entry in the closure storage: the call is not resolved. */
  ghost predicate IsUnknownClosure(tcx: Tcx, i: Instance, closures: Closures) {
    tcx.isClosure(i.did) && i.did !in closures
  }

  /** The arguments of the candidate cannot be told. A function can always be called. */
  ghost predicate CannotBeCalled(tcx: Tcx, i: Instance, args: seq<TrackedTy>) {
    || (tcx.isClosure(i.did) && (|args| < 2 || SpreadTuple(args[1]).None?))
    || !(tcx.typeOf(i).head.FnDef? || tcx.typeOf(i).head.Closure?)
    || (tcx.typeOf(i).head.Closure? && (|tcx.inputsOf(i)| != 1 || (!IsTuple(tcx.inputsOf(i)[0]) && !ContainsErased(tcx.inputsOf(i)[0]))))
  }

  /** A closure whose entry is of a type that does not resolve. */
  ghost predicate EntryIsUnresolved(tcx: Tcx, i: Instance, closures: Closures) {
    && tcx.isClosure(i.did) && i.did in closures
    && (!closures[i.did].withSubsts.head.Closure?
        || tcx.resolve(closures[i.did].withSubsts.head.did, closures[i.did].withSubsts.args).None?)
  }

  /** The types of closures are closure types, those of all other functions are function types. */
  ghost predicate TypedAsIs(tcx: Tcx, i: Instance) {
    if tcx.isClosure(i.did) then tcx.typeOf(i).head.Closure? else tcx.typeOf(i).head.FnDef?
  }

  lemma AssembledExactly(tcx: Tcx, i: Instance, args: seq<TrackedTy>, closures: Closures)
    ensures Assemble(tcx, i, args, closures).Panics? <==> CannotBeCalled(tcx, i, args)
    ensures !CannotBeCalled(tcx, i, args) ==> (Assemble(tcx, i, args, closures).Failed? <==> IsUnknownClosure(tcx, i, closures))
  {
    var inputs := tcx.inputsOf(i);
    if tcx.typeOf(i).head.Closure? && |inputs| == 1 {
      assert SpreadTuple(FromTy(inputs[0])).None? <==> !IsTuple(inputs[0]) && !ContainsErased(inputs[0]);
    }
  }

  function AllFrom(tys: seq<Ty>): seq<TrackedTy> {
    seq(|tys|, k requires 0 <= k < |tys| => FromTy(tys[k]))
  }

  lemma MergedTakes(passed: seq<TrackedTy>, declared: seq<Ty>, tracked: seq<TrackedTy>)
    ensures TakesArguments(passed, declared, tracked) <==>
            tracked == Merge(passed, AllFrom(declared))
  {
    var merged := Merge(passed, AllFrom(declared));
    if TakesArguments(passed, declared, tracked) {
      forall k | 0 <= k < |passed| ensures tracked[k] == merged[k] {
        assert TakesArgument(passed, declared, k, tracked[k]);
      }
    }
  }

  lemma FunctionRunsExactly(tcx: Tcx, caller: PartialFunction, i: Instance, args: seq<TrackedTy>, closures: Closures, g: PartialFunction)
    requires !tcx.isClosure(i.did) && TypedAsIs(tcx, i)
    ensures Assemble(tcx, i, args, closures).Fine?
    ensures Instantiate(tcx, caller, Assemble(tcx, i, args, closures).value) == Some(g) <==> RunsFunction(tcx, caller, i, args, g)
  {
    MergedTakes(args, tcx.inputsOf(i), g.trackedArgs);
  }

  lemma ClosureRunsExactly(tcx: Tcx, caller: PartialFunction, i: Instance, args: seq<TrackedTy>, closures: Closures, g: PartialFunction)
    requires tcx.isClosure(i.did) && TypedAsIs(tcx, i) && Assemble(tcx, i, args, closures).Fine?
    ensures Instantiate(tcx, caller, Assemble(tcx, i, args, closures).value) == Some(g) <==> RunsClosure(tcx, i, args, closures, g)
  {
    var declared := ClosureInputs(tcx.typeOf(i), tcx.inputsOf(i)[0]);
    ClosureDeclares(tcx, i);
    MergedTakes([args[0]] + SpreadTuple(args[1]).value, declared, g.trackedArgs);
  }

  lemma ClosureDeclares(tcx: Tcx, i: Instance)
    requires tcx.typeOf(i).head.Closure? && DeclaredArgs(tcx, i).Some?
    ensures |tcx.inputsOf(i)| == 1
    ensures DeclaredArgs(tcx, i) == Some(AllFrom(ClosureInputs(tcx.typeOf(i), tcx.inputsOf(i)[0])))
  {
    var self, input := tcx.typeOf(i), tcx.inputsOf(i)[0];
    InputSpreads(input);
    var rest := if ContainsErased(input) then [input] else input.args;
    assert AllFrom([RefTo(false, self)] + rest) == [FromTy(RefTo(false, self))] + AllFrom(rest);
  }

  lemma InputSpreads(input: Ty)
    requires SpreadTuple(FromTy(input)).Some?
    ensures SpreadTuple(FromTy(input)) == Some(AllFrom(if ContainsErased(input) then [input] else input.args))
  {
    if ContainsErased(input) {
      assert AllFrom([input]) == [Erased({})];
    } else {
      assert SpreadTuple(Present(input)).value == AllFrom(input.args);
    }
  }

  // ---------------------------------------------------------------------------------------
  // Candidates

  /** The instance is one the call may run. A callee with a known body is the one it resolves to; of any other the
      arguments suggest types for its parameters, and each combination that resolves is a candidate. */
  ghost predicate IsCandidate(tcx: Tcx, did: DefId, substs: seq<Ty>, args: seq<TrackedTy>, i: Instance) {
    var named := match tcx.resolve(did, substs) { case Some(direct) => direct.did case None => did };
    if tcx.mirAvailable(named) then tcx.resolve(did, substs) == Some(i)
    else exists choice :: IsSuggested(tcx, named, substs, args, choice) && tcx.resolve(named, choice) == Some(i)
  }

  ghost predicate IsSuggested(tcx: Tcx, did: DefId, substs: seq<Ty>, args: seq<TrackedTy>, choice: seq<Ty>) {
    && |choice| == |substs| > 0
    && forall k | 0 <= k < |choice| :: choice[k] in ExtractSubsts(args, tcx.genericInputs(did), k)
  }

  /** The body of the callee is known, but not which instance is called. */
  ghost predicate IsUnresolvedBody(tcx: Tcx, did: DefId, substs: seq<Ty>) {
    tcx.mirAvailable(did) && tcx.resolve(did, substs) == None
  }

  lemma CandidatesExactly(tcx: Tcx, did: DefId, substs: seq<Ty>, args: seq<TrackedTy>)
    ensures CandidateInstances(tcx, did, substs, args).None? <==> IsUnresolvedBody(tcx, did, substs)
    ensures forall i | CandidateInstances(tcx, did, substs, args).Some? ::
              i in CandidateInstances(tcx, did, substs, args).value <==> IsCandidate(tcx, did, substs, args, i)
  {
    var named := CalleeOf(tcx, did, substs);
    if !tcx.mirAvailable(named) {
      forall i ensures i in CandidateInstances(tcx, did, substs, args).value <==> IsCandidate(tcx, did, substs, args, i) {
        PlausibleInstancesExact(args, tcx.genericInputs(named), |substs|, c => tcx.resolve(named, c), i);
      }
    }
  }

  /** All candidates are typed as what they are. */
  ghost predicate CandidatesTyped(tcx: Tcx, did: DefId, substs: seq<Ty>, args: seq<TrackedTy>) {
    forall i | IsCandidate(tcx, did, substs, args, i) :: TypedAsIs(tcx, i)
  }

  ghost predicate SomeCannotBeCalled(tcx: Tcx, did: DefId, substs: seq<Ty>, args: seq<TrackedTy>) {
    exists i :: IsCandidate(tcx, did, substs, args, i) && CannotBeCalled(tcx, i, args)
  }

  ghost predicate SomeIsUnknown(tcx: Tcx, did: DefId, substs: seq<Ty>, args: seq<TrackedTy>, closures: Closures) {
    exists i :: IsCandidate(tcx, did, substs, args, i) && IsUnknownClosure(tcx, i, closures)
  }

  ghost predicate SomeEntryIsUnresolved(tcx: Tcx, did: DefId, substs: seq<Ty>, args: seq<TrackedTy>, closures: Closures) {
    exists i :: IsCandidate(tcx, did, substs, args, i) && EntryIsUnresolved(tcx, i, closures)
  }

  lemma AllAssembled(tcx: Tcx, did: DefId, substs: seq<Ty>, args: seq<TrackedTy>, closures: Closures, instances: set<Instance>)
    requires CandidateInstances(tcx, did, substs, args) == Some(instances)
    ensures AssembleAll(tcx, instances, args, closures).Panics? <==> SomeCannotBeCalled(tcx, did, substs, args)
    ensures AssembleAll(tcx, instances, args, closures).Failed? <==>
            !SomeCannotBeCalled(tcx, did, substs, args) && SomeIsUnknown(tcx, did, substs, args, closures)
  {
    CandidatesExactly(tcx, did, substs, args);
    forall i ensures (Assemble(tcx, i, args, closures).Panics? <==> CannotBeCalled(tcx, i, args))
      ensures !CannotBeCalled(tcx, i, args) ==> (Assemble(tcx, i, args, closures).Failed? <==> IsUnknownClosure(tcx, i, closures))
    {
      AssembledExactly(tcx, i, args, closures);
    }
  }

  lemma CandidateRunsAs(tcx: Tcx, caller: PartialFunction, i: Instance, args: seq<TrackedTy>, closures: Closures, g: PartialFunction)
    requires TypedAsIs(tcx, i) && Assemble(tcx, i, args, closures).Fine?
    ensures Instantiate(tcx, caller, Assemble(tcx, i, args, closures).value) == Some(g) <==> RunsAs(tcx, caller, i, args, closures, g)
    ensures Instantiate(tcx, caller, Assemble(tcx, i, args, closures).value).None? <==> EntryIsUnresolved(tcx, i, closures)
  {
    if tcx.isClosure(i.did) {
      ClosureRunsExactly(tcx, caller, i, args, closures, g);
    } else {
      FunctionRunsExactly(tcx, caller, i, args, closures, g);
    }
  }

  /** What a call is resolved to, and when it is not. It panics exactly if its body is known but not its instance, or
      if some candidate cannot be called or has an entry that does not resolve; it fails exactly if otherwise some
      candidate is an unknown closure; and else it runs exactly what the candidates are run as. */
  lemma ResolvedExactly(tcx: Tcx, caller: PartialFunction, did: DefId, substs: seq<Ty>, args: seq<TrackedTy>, closures: Closures)
    requires CandidatesTyped(tcx, did, substs, args)
    ensures var r := Resolve(tcx, caller, did, substs, args, closures);
            var cannot := IsUnresolvedBody(tcx, did, substs) || SomeCannotBeCalled(tcx, did, substs, args);
            var unknown := SomeIsUnknown(tcx, did, substs, args, closures);
            && (r.Panics? <==> cannot || (!unknown && SomeEntryIsUnresolved(tcx, did, substs, args, closures)))
            && (r.Failed? <==> !cannot && unknown)
    ensures forall g | Resolve(tcx, caller, did, substs, args, closures).Fine? ::
              g in Resolve(tcx, caller, did, substs, args, closures).value <==>
              exists i :: IsCandidate(tcx, did, substs, args, i) && RunsAs(tcx, caller, i, args, closures, g)
  {
    CandidatesExactly(tcx, did, substs, args);
    var instances := CandidateInstances(tcx, did, substs, args);
    if instances.Some? {
      AllAssembled(tcx, did, substs, args, closures, instances.value);
      if AssembleAll(tcx, instances.value, args, closures).Fine? {
        var fns, r := AssembleAll(tcx, instances.value, args, closures).value, Resolve(tcx, caller, did, substs, args, closures);
        InstantiatedExactly(tcx, caller, did, substs, args, closures, instances.value, caller);
        forall g | r.Fine?
          ensures g in r.value <==> exists i :: IsCandidate(tcx, did, substs, args, i) && RunsAs(tcx, caller, i, args, closures, g)
        {
          InstantiatedExactly(tcx, caller, did, substs, args, closures, instances.value, g);
          assert g in r.value <==> exists h :: h in fns && Instantiate(tcx, caller, h) == Some(g);
        }
      }
    }
  }

  lemma InstantiatedExactly(tcx: Tcx, caller: PartialFunction, did: DefId, substs: seq<Ty>, args: seq<TrackedTy>, closures: Closures,
                            instances: set<Instance>, g: PartialFunction)
    requires CandidatesTyped(tcx, did, substs, args) && CandidateInstances(tcx, did, substs, args) == Some(instances)
    requires AssembleAll(tcx, instances, args, closures).Fine?
    ensures var fns := AssembleAll(tcx, instances, args, closures).value;
            && ((exists h | h in fns :: Instantiate(tcx, caller, h).None?) <==> SomeEntryIsUnresolved(tcx, did, substs, args, closures))
            && ((exists h :: h in fns && Instantiate(tcx, caller, h) == Some(g)) <==>
                exists i :: IsCandidate(tcx, did, substs, args, i) && RunsAs(tcx, caller, i, args, closures, g))
  {
    CandidatesExactly(tcx, did, substs, args);
    var fns := AssembleAll(tcx, instances, args, closures).value;
    forall i | i in instances
      ensures Assemble(tcx, i, args, closures).Fine? && Assemble(tcx, i, args, closures).value in fns
      ensures Instantiate(tcx, caller, Assemble(tcx, i, args, closures).value).None? <==> EntryIsUnresolved(tcx, i, closures)
      ensures Instantiate(tcx, caller, Assemble(tcx, i, args, closures).value) == Some(g) <==> RunsAs(tcx, caller, i, args, closures, g)
    {
      assert Assemble(tcx, i, args, closures).Fine?;
      CandidateRunsAs(tcx, caller, i, args, closures, g);
    }
    if i :| IsCandidate(tcx, did, substs, args, i) && EntryIsUnresolved(tcx, i, closures) {
      assert i in instances && Assemble(tcx, i, args, closures).value in fns;
    }
    if h :| h in fns && Instantiate(tcx, caller, h).None? {
      var i :| i in instances && h == Assemble(tcx, i, args, closures).value;
      assert IsCandidate(tcx, did, substs, args, i);
    }
  }

  /** A call whose callee is known runs the instance it resolves to, in the caller, and nothing else. */
  lemma DirectCalleeIsRun(tcx: Tcx, caller: PartialFunction, did: DefId, substs: seq<Ty>, args: seq<TrackedTy>, closures: Closures, i: Instance)
    requires tcx.resolve(did, substs) == Some(i) && tcx.mirAvailable(i.did) && TypedAsIs(tcx, i)
    ensures !tcx.isClosure(i.did) ==> Resolve(tcx, caller, did, substs, args, closures).Fine?
    ensures Resolve(tcx, caller, did, substs, args, closures).Fine? ==>
              exists g :: Resolve(tcx, caller, did, substs, args, closures).value == {g} && RunsAs(tcx, caller, i, args, closures, g)
  {
    forall other ensures IsCandidate(tcx, did, substs, args, other) <==> other == i {
    }
    ResolvedExactly(tcx, caller, did, substs, args, closures);
    AssembledExactly(tcx, i, args, closures);
    var r := Resolve(tcx, caller, did, substs, args, closures);
    if r.Fine? {
      assert CandidateInstances(tcx, did, substs, args) == Some({i});
      assert i in {i} && Assemble(tcx, i, args, closures).Fine?;
      var h := Assemble(tcx, i, args, closures).value;
      assert AssembleAll(tcx, {i}, args, closures).value == {h};
      assert h in {h};
      var g := Instantiate(tcx, caller, h).value;
      assert r.value == {g};
      assert g in r.value;
    }
  }
}
