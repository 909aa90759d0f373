/** From a callee definition and tracked argument types to the functions that may be run. */
module Resolution {
  import opened Options
  import opened Types
  import opened TrackedTypes
  import opened GenericExtraction
  import opened Mir
  import opened Domains
  import opened CollectorDomains
  import opened ClosureStorage

  /** A function about to be analyzed, with the types its arguments are known to have; a closure
      carries a copy of its storage entry. */
  datatype PartialFunction =
    | RegularFunction(instance: Instance, trackedArgs: seq<TrackedTy>)
    | ClosureFunction(instance: Instance, trackedArgs: seq<TrackedTy>, info: ClosureInfo)

  /** The key of the recursion guard. */
  datatype StackItem = StackItem(did: DefId, trackedArgs: seq<TrackedTy>)

  function ItemOf(f: PartialFunction): StackItem {
    StackItem(f.instance.did, f.trackedArgs)
  }

  /** `Failed` is an error the caller handles, `Panics` is not. */
  datatype Resolved<+T> = Fine(value: T) | Failed | Panics

  /** Provided argument types win unless they hide something. Lists of different lengths keep the inferred one. */
  function Merge(inferred: seq<TrackedTy>, provided: seq<TrackedTy>): seq<TrackedTy> {
    if |inferred| != |provided| then inferred
    else seq(|inferred|, i requires 0 <= i < |inferred| => if provided[i].Present? then provided[i] else inferred[i])
  }

  /** The argument types an instance declares; a closure receives itself by reference and its
      arguments packed in one tuple. */
  function DeclaredArgs(tcx: Tcx, instance: Instance): Option<seq<TrackedTy>> {
    var ty := tcx.typeOf(instance);
    var inputs := tcx.inputsOf(instance);
    match ty.head
    case FnDef(_) => Some(seq(|inputs|, i requires 0 <= i < |inputs| => FromTy(inputs[i])))
    case Closure(_) =>
      if |inputs| != 1 then None
      else
        (match SpreadTuple(FromTy(inputs[0]))
         case None => None
         case Some(fields) => Some([FromTy(RefTo(false, ty))] + fields))
    case _ => None
  }

  /** A caller passes a closure and a tuple of arguments; the closure body sees them spread. */
  function AsClosureArgs(args: seq<TrackedTy>): Option<seq<TrackedTy>> {
    if |args| < 2 then None
    else
      match SpreadTuple(args[1])
      case None => None
      case Some(fields) => Some([args[0]] + fields)
  }

  function Assemble(tcx: Tcx, instance: Instance, args: seq<TrackedTy>, closures: Closures): Resolved<PartialFunction> {
    var inferred := if tcx.isClosure(instance.did) then AsClosureArgs(args) else Some(args);
    var declared := DeclaredArgs(tcx, instance);
    if inferred.None? || declared.None? then Panics
    else
      var merged := Merge(inferred.value, declared.value);
      if !tcx.isClosure(instance.did) then Fine(RegularFunction(instance, merged))
      else if instance.did in closures then Fine(ClosureFunction(instance, merged, closures[instance.did]))
      else Failed
  }

  /** Instantiates the callee in the caller; a closure is taken as the storage recorded it. */
  function Instantiate(tcx: Tcx, caller: PartialFunction, callee: PartialFunction): Option<PartialFunction> {
    match callee
    case RegularFunction(instance, args) =>
      Some(RegularFunction(instance.(args := SubstAll(instance.args, caller.instance.args)), args))
    case ClosureFunction(_, args, info) =>
      if !info.withSubsts.head.Closure? then None
      else
        match tcx.resolve(info.withSubsts.head.did, info.withSubsts.args)
        case None => None
        case Some(instance) => Some(ClosureFunction(instance, args, info))
  }

  /** Where the candidates of a call are looked for: at what it resolves to directly, if anything. */
  function CalleeOf(tcx: Tcx, did: DefId, substs: seq<Ty>): DefId {
    var direct := tcx.resolve(did, substs);
    if direct.Some? then direct.value.did else did
  }

  /** The instances a callee may stand for: itself if its body is known, else all plausible ones.
      `None` is the panic on a known body that does not resolve. */
  function CandidateInstances(tcx: Tcx, did: DefId, substs: seq<Ty>, args: seq<TrackedTy>): Option<set<Instance>> {
    var direct := tcx.resolve(did, substs);
    var actual := CalleeOf(tcx, did, substs);
    if tcx.mirAvailable(actual) then
      if direct.Some? then Some({direct.value}) else None
    else Some(PlausibleInstances(args, tcx.genericInputs(actual), |substs|, c => tcx.resolve(actual, c)))
  }

  function AssembleAll(tcx: Tcx, instances: set<Instance>, args: seq<TrackedTy>, closures: Closures): Resolved<set<PartialFunction>> {
    if exists i | i in instances :: Assemble(tcx, i, args, closures).Panics? then Panics
    else if exists i | i in instances :: Assemble(tcx, i, args, closures).Failed? then Failed
    else Fine(set i | i in instances && Assemble(tcx, i, args, closures).Fine? :: Assemble(tcx, i, args, closures).value)
  }

  /** `resolve`: the partial functions a call in `caller` may run. One failing candidate fails the whole call. */
  function Resolve(tcx: Tcx, caller: PartialFunction, did: DefId, substs: seq<Ty>, args: seq<TrackedTy>,
                   closures: Closures): Resolved<set<PartialFunction>>
  {
    match CandidateInstances(tcx, did, substs, args)
    case None => Panics
    case Some(instances) =>
      match AssembleAll(tcx, instances, args, closures)
      case Panics => Panics
      case Failed => Failed
      case Fine(fns) =>
        if exists g | g in fns :: Instantiate(tcx, caller, g).None? then Panics
        else Fine(set g | g in fns && Instantiate(tcx, caller, g).Some? :: Instantiate(tcx, caller, g).value)
  }

  // ---------------------------------------------------------------------------------------
  // Call sites

  /** A callee type with the operands passed and their tracked types. */
  datatype Site = Site(functionTy: Ty, args: seq<Operand>, argTys: seq<TrackedTy>)

  /** The call a terminator makes in state `d`: a call, or the destructor run by a drop. */
  function CallSite(tcx: Tcx, caller: PartialFunction, body: Body, d: Domain, t: Terminator): Option<Site> {
    var substs := caller.instance.args;
    match t
    case Call(func, args, _) => Some(Site(Subst(func, substs), args, ArgumentTypes(tcx, body, d, args)))
    case Drop(p) =>
      var ty := tcx.placeTy(body, p);
      if !ty.head.Adt? then None
      else
        (match tcx.destructorOf(ty.head.did)
         case None => None
         case Some(did) => Some(Site(Subst(Ty(FnDef(did), ty.args), substs), [Copy(p)], [FromTy(RefTo(true, ty))])))
    case OtherTerminator => None
  }

  /** Intrinsics and virtual calls have no body to look into. */
  predicate HasNoBody(g: PartialFunction) {
    g.instance.kind.Intrinsic? || g.instance.kind.Virtual?
  }

  function CallTo(g: PartialFunction, args: seq<Operand>): FunctionCall {
    if HasNoBody(g) then WithoutBody(g.instance.did, args) else WithBody(g.instance, args)
  }

  function ResolveSite(tcx: Tcx, caller: PartialFunction, site: Site, closures: Closures): Resolved<set<PartialFunction>>
    requires site.functionTy.head.FnDef?
  {
    Resolve(tcx, caller, site.functionTy.head.did, site.functionTy.args, site.argTys, closures)
  }

  // ---------------------------------------------------------------------------------------
  // Bottom value

  /** The state every block of `f` starts from: declared types, captured variables, arguments. */
  function Bottom(tcx: Tcx, f: PartialFunction): Option<Domain> {
    var body := tcx.bodyOf(f.instance);
    var declared := Domain(DeclaredPlaces(tcx, body), {}, {});
    var captured := if f.ClosureFunction? then AugmentUpvars(tcx, body, declared, f.info.upvars, 0) else Some(declared);
    match captured
    case None => None
    case Some(d) => AugmentArgs(tcx, body, d, f.trackedArgs, if tcx.isClosure(f.instance.did) then 1 else 0)
  }

  // ---------------------------------------------------------------------------------------
  // A call with its callee hidden behind a type still records the callee

  /** The tracked arguments reveal, parameter by parameter, the substitution the call really runs with. */
  ghost predicate CallIsRevealed(tcx: Tcx, did: DefId, args: seq<TrackedTy>, s: seq<Ty>) {
    s != [] && forall i: nat | i < |s| :: RevealedByArgument(tcx.genericInputs(did), args, s, i)
  }

  /** The resolved call runs `target`: a closure as the storage recorded it, anything else with the
      caller's type arguments. */
  ghost predicate Runs(caller: PartialFunction, g: PartialFunction, target: Instance, closures: Closures, isClosure: bool) {
    if isClosure then target.did in closures && g.ClosureFunction? && g.info == closures[target.did]
    else g.RegularFunction? && g.instance == target.(args := SubstAll(target.args, caller.instance.args))
  }

  /** A call whose callee has no body of its own (a trait method called on a parameter or a trait
      object, whether or not it resolves to a virtual call, or a call through a closure trait), but
      whose arguments reveal the substitution `s` it really runs with, has the function or closure
      really run among its resolved callees. */
  lemma HiddenCalleeIsResolved(tcx: Tcx, caller: PartialFunction, did: DefId, substs: seq<Ty>, s: seq<Ty>,
                               args: seq<TrackedTy>, closures: Closures)
    requires var callee := CalleeOf(tcx, did, substs);
             && !tcx.mirAvailable(callee)
             && |s| == |substs| && CallIsRevealed(tcx, callee, args, s)
             && tcx.resolve(callee, s).Some?
    requires Resolve(tcx, caller, did, substs, args, closures).Fine?
    ensures var target := tcx.resolve(CalleeOf(tcx, did, substs), s).value;
            exists g :: g in Resolve(tcx, caller, did, substs, args, closures).value
                        && Runs(caller, g, target, closures, tcx.isClosure(target.did))
  {
    var callee := CalleeOf(tcx, did, substs);
    var target := tcx.resolve(callee, s).value;
    var resolve := (c: seq<Ty>) => tcx.resolve(callee, c);
    ActualCalleeIsPlausible(args, tcx.genericInputs(callee), s, resolve);
    PlausibleInstancesExact(args, tcx.genericInputs(callee), |s|, resolve, target);
    PlausibleIgnoresNaming(tcx, callee, args, |s|, resolve, target);
    assert target in CandidateInstances(tcx, did, substs, args).value;
    CandidateRuns(tcx, caller, did, substs, args, closures, target);
  }

  /** Every candidate is run, if the call resolves at all. */
  lemma CandidateRuns(tcx: Tcx, caller: PartialFunction, did: DefId, substs: seq<Ty>, args: seq<TrackedTy>,
                      closures: Closures, target: Instance)
    requires Resolve(tcx, caller, did, substs, args, closures).Fine?
    requires target in CandidateInstances(tcx, did, substs, args).value
    ensures exists g :: g in Resolve(tcx, caller, did, substs, args, closures).value
                        && Runs(caller, g, target, closures, tcx.isClosure(target.did))
  {
    var fns := AssembleAll(tcx, CandidateInstances(tcx, did, substs, args).value, args, closures).value;
    assert Assemble(tcx, target, args, closures).Fine?;
    var g := Assemble(tcx, target, args, closures).value;
    assert g in fns;
    var h := Instantiate(tcx, caller, g).value;
    assert h in Resolve(tcx, caller, did, substs, args, closures).value;
    assert Runs(caller, h, target, closures, tcx.isClosure(target.did));
  }

  lemma PlausibleIgnoresNaming(tcx: Tcx, did: DefId, args: seq<TrackedTy>, n: nat,
                               resolve: seq<Ty> -> Option<Instance>, target: Instance)
    requires forall c :: resolve(c) == tcx.resolve(did, c)
    requires target in PlausibleInstances(args, tcx.genericInputs(did), n, resolve)
    ensures target in PlausibleInstances(args, tcx.genericInputs(did), n, c => tcx.resolve(did, c))
  {
    PlausibleInstancesExact(args, tcx.genericInputs(did), n, resolve, target);
    PlausibleInstancesExact(args, tcx.genericInputs(did), n, c => tcx.resolve(did, c), target);
  }
}
