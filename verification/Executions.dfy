/** Executions of analyzed functions and of the functions they call: what the summaries say about the
    types of values when types flow down a stack of calls and back. */
module Executions {
  import opened Options
  import opened Types
  import opened TrackedTypes
  import opened Mir
  import opened Domains
  import opened CollectorDomains
  import opened Transfers
  import opened Dataflow
  import opened ClosureStorage
  import opened Resolution
  import opened Evidence
  import opened TypeSoundness
  import opened PathTypes

  // ---------------------------------------------------------------------------------------
  // One function

  /** The function a certificate is about is entered with the types `start` and executed along a path. What
      its calls did in the analysis, block by block, is `effects`. */
  datatype Execution = Execution(c: Certificate, effects: nat -> seq<CallEffect>, start: RealTypes, path: seq<nat>, runs: seq<BlockRun>)
  {
    ghost function Function(): PartialFunction
      requires c.chain != []
    {
      c.Function()
    }

    /** The types when the execution ends. */
    function End(): RealTypes
      requires path != [] && |runs| == |path|
    {
      runs[|path| - 1].after
    }
  }

  /** The certificate is one of the collection, the calls did no more than they were last recorded to do, and
      the statements were executed. What is known of the types does not restrict the execution. */
  ghost predicate RunsCertified(tcx: Tcx, l: Ledger, x: Execution) {
    && ValidCertificate(tcx, l, x.c) && x.path != [] && |x.runs| == |x.path|
    && var e := SettingOf(tcx, x.Function());
       && FinallyDid(e, x.c.run.steps, x.c.ends.steps, x.effects) && PathRuns(e, FixedTransfer(e, x.effects), x.path)
       && IsMoment(tcx, e.bottom, x.start)
       && AllTracked(e.bottom) && InteriorsExtend(tcx, e.body)
       && RunsPath(e, x.start, x.path, x.runs)
  }

  /** The inputs are tracked with the types they have. */
  ghost predicate EnteredKnowing(tcx: Tcx, x: Execution, inputs: set<Place>)
    requires x.c.chain != []
  {
    Bottom(tcx, x.Function()).Some? && KnownTypes(Bottom(tcx, x.Function()).value, x.start, inputs)
  }

  /** The places whose types are known when the execution ends. */
  ghost function KnownAtEnd(tcx: Tcx, x: Execution, inputs: set<Place>): set<Place>
    requires x.c.chain != [] && Bottom(tcx, x.Function()).Some? && x.path != [] && |x.runs| == |x.path|
  {
    KnownInTheEnd(SettingOf(tcx, x.Function()), x.effects, inputs, x.path, x.runs)
  }

  /** The certified summary admits the types values really have at all places known in the end. */
  lemma ActualTypesAreTracked(tcx: Tcx, l: Ledger, x: Execution, inputs: set<Place>)
    requires RunsCertified(tcx, l, x) && EnteredKnowing(tcx, x, inputs)
    ensures KnownTypes(JoinAll(x.c.ends.steps), x.End(), KnownAtEnd(tcx, x, inputs))
  {
    SummaryAdmitsActualTypes(SettingOf(tcx, x.Function()), x.c.run.steps, x.c.ends.steps, x.effects, x.start, inputs, x.path, x.runs);
  }

  // ---------------------------------------------------------------------------------------
  // At a call

  /** The state in which the call at the end of block number `n` of the path is met. */
  ghost function StateAtCall(tcx: Tcx, x: Execution, n: nat): Option<Domain>
    requires x.c.chain != [] && Bottom(tcx, x.Function()).Some? && n < |x.path| && |x.runs| == |x.path|
  {
    var e := SettingOf(tcx, x.Function());
    if x.path[n] >= |e.body.blocks| then None
    else
      match PathState(FixedTransfer(e, x.effects), e.bottom, x.path[..n + 1])
      case None => None
      case Some(d) => AfterStatements(tcx, e.body, e.substs, d, e.body.blocks[x.path[n]].statements)
  }

  /** The places known then. */
  ghost function KnownAtCall(tcx: Tcx, x: Execution, inputs: set<Place>, n: nat): set<Place>
    requires x.c.chain != [] && Bottom(tcx, x.Function()).Some? && n < |x.path| && |x.runs| == |x.path|
  {
    var e := SettingOf(tcx, x.Function());
    match PathState(FixedTransfer(e, x.effects), e.bottom, x.path[..n + 1])
    case None => {}
    case Some(d) => KnownAtTerminator(e, d, KnownBefore(e, x.effects, inputs, x.path[..n + 1], x.runs[..n + 1]), x.path[n], x.runs[n])
  }

  /** The types then. */
  ghost function TypesAtCall(x: Execution, n: nat): RealTypes
    requires n < |x.runs| && x.runs[n].moments != []
  {
    x.runs[n].moments[|x.runs[n].moments| - 1]
  }

  lemma CallIsReachedKnown(tcx: Tcx, l: Ledger, x: Execution, inputs: set<Place>, n: nat)
    requires RunsCertified(tcx, l, x) && EnteredKnowing(tcx, x, inputs) && n < |x.path| && StateAtCall(tcx, x, n).Some?
    ensures x.runs[n].moments != []
    ensures var d, types := StateAtCall(tcx, x, n).value, TypesAtCall(x, n);
            KnownTypes(d, types, KnownAtCall(tcx, x, inputs, n)) && AllTracked(d) && IsMoment(tcx, d, types)
  {
    var e := SettingOf(tcx, x.Function());
    var path, runs := x.path[..n + 1], x.runs[..n + 1];
    assert path[n] == x.path[n] && runs[n] == x.runs[n];
    PrefixRuns(e, x.start, x.path, x.runs, n + 1);
    PathKeepsKnown(e, x.effects, x.start, inputs, path, runs);
    assert RunsBlock(e, path[n], runs[n]);
    TerminatorIsReachedKnown(e, PathState(FixedTransfer(e, x.effects), e.bottom, path).value,
                             KnownBefore(e, x.effects, inputs, path, runs), path[n], runs[n]);
  }

  // ---------------------------------------------------------------------------------------
  // Into a callee

  /** A call at the end of block number `at` of the path. Its target was resolved in a state `d`, which may know
      more than this path, and with the closure storage `closures`. */
  datatype CallMade = CallMade(at: nat, args: seq<Operand>, d: Domain, target: Instance, closures: Closures)

  function RealOperands(types: RealTypes, args: seq<Operand>): seq<Ty> {
    seq(|args|, i requires 0 <= i < |args| => RealOperand(types, args[i]))
  }

  predicate CallsWith(t: Terminator, args: seq<Operand>) {
    t.Call? && t.args == args
  }

  /** `x` comes to the call. */
  ghost predicate Calls(tcx: Tcx, x: Execution, call: CallMade)
    requires x.c.chain != [] && Bottom(tcx, x.Function()).Some? && |x.runs| == |x.path|
  {
    var body := tcx.bodyOf(x.Function().instance);
    && call.at < |x.path| && x.path[call.at] < |body.blocks| && x.runs[call.at].moments != []
    && CallsWith(body.blocks[x.path[call.at]].terminator, call.args)
    && StateAtCall(tcx, x, call.at).Some? && Leq(StateAtCall(tcx, x, call.at).value, call.d)
  }

  ghost function ArgumentsOf(tcx: Tcx, x: Execution, call: CallMade): seq<TrackedTy>
    requires x.c.chain != []
  {
    ArgumentTypes(tcx, tcx.bodyOf(x.Function().instance), call.d, call.args)
  }

  /** The call of `x` is resolved to the function `g`, which is entered with the types of what is passed: one by
      one, or for a closure, packed in a tuple. Declared argument types that hide nothing are right. */
  ghost predicate Enters(tcx: Tcx, x: Execution, call: CallMade, g: PartialFunction, start: RealTypes)
    requires x.c.chain != [] && Bottom(tcx, x.Function()).Some? && |x.runs| == |x.path|
  {
    && Calls(tcx, x, call)
    && Assemble(tcx, call.target, ArgumentsOf(tcx, x, call), call.closures).Fine?
    && Instantiate(tcx, x.Function(), Assemble(tcx, call.target, ArgumentsOf(tcx, x, call), call.closures).value) == Some(g)
    && tcx.isClosure(g.instance.did) == tcx.isClosure(call.target.did)
    && var tys := RealOperands(TypesAtCall(x, call.at), call.args);
       if tcx.isClosure(call.target.did)
       then |tys| == 2 && IsTuple(tys[1]) && PassedTypes(tcx, call.target, tys[1].args, start, 1)
       else PassedTypes(tcx, call.target, tys, start, 0)
  }

  /** The types arrive at the arguments from number `from` on. */
  ghost predicate PassedTypes(tcx: Tcx, target: Instance, tys: seq<Ty>, start: RealTypes, from: nat) {
    DeclarationsRight(tcx, target, tys, from) && forall i: nat | i < |tys| :: start(ArgumentPlace(from + i)) == tys[i]
  }

  /** The operand is known at the call, and is no constant that hides something. */
  ghost predicate PassesKnown(d: Domain, known: set<Place>, op: Operand) {
    ReadsKnown(d, known, op) && !HidingConstant(op)
  }

  /** The arguments of a regular function that are known there because they are known in the caller. */
  ghost function PassedOneByOne(d: Domain, known: set<Place>, args: seq<Operand>): set<Place> {
    set i: nat | i < |args| && PassesKnown(d, known, args[i]) :: ArgumentPlace(i)
  }

  /** The arguments of a closure that are known there because the tuple they are packed in is known in the caller.
      If the tuple is tracked as one known type, the fields that hide something are not. */
  ghost function PassedInTuple(d: Domain, known: set<Place>, args: seq<Operand>, tracked: seq<TrackedTy>, tys: seq<Ty>): set<Place> {
    if |args| != 2 || |tracked| != 2 || |tys| != 2 || !PassesKnown(d, known, args[1]) then {}
    else set i: nat | i < |tys[1].args| && FieldArrives(tracked[1], tys[1].args[i]) :: ArgumentPlace(1 + i)
  }

  predicate FieldArrives(tuple: TrackedTy, ty: Ty) {
    tuple.Erased? || !ContainsErased(ty)
  }

  ghost function PassedOn(tcx: Tcx, x: Execution, inputs: set<Place>, call: CallMade): set<Place>
    requires x.c.chain != [] && Bottom(tcx, x.Function()).Some? && |x.runs| == |x.path| && Calls(tcx, x, call)
  {
    var d, known := StateAtCall(tcx, x, call.at).value, KnownAtCall(tcx, x, inputs, call.at);
    if tcx.isClosure(call.target.did)
    then PassedInTuple(d, known, call.args, ArgumentsOf(tcx, x, call), RealOperands(TypesAtCall(x, call.at), call.args))
    else PassedOneByOne(d, known, call.args)
  }

  /** The captured types the closure storage had recorded when the call was resolved. */
  ghost function CapturesKnown(tcx: Tcx, g: PartialFunction, start: RealTypes): set<Place> {
    if g.ClosureFunction?
    then set k: nat | k < |g.info.upvars| && Admits(g.info.upvars[k], start(CapturePlace(tcx, g, k))) :: CapturePlace(tcx, g, k)
    else {}
  }

  lemma PassedOperandIsAdmitted(tcx: Tcx, l: Ledger, x: Execution, inputs: set<Place>, call: CallMade, i: nat)
    requires RunsCertified(tcx, l, x) && EnteredKnowing(tcx, x, inputs) && Calls(tcx, x, call) && i < |call.args|
    requires PassesKnown(StateAtCall(tcx, x, call.at).value, KnownAtCall(tcx, x, inputs, call.at), call.args[i])
    ensures Admits(ArgumentsOf(tcx, x, call)[i], RealOperand(TypesAtCall(x, call.at), call.args[i]))
  {
    var body, op, types := tcx.bodyOf(x.Function().instance), call.args[i], TypesAtCall(x, call.at);
    var d := StateAtCall(tcx, x, call.at).value;
    CallIsReachedKnown(tcx, l, x, inputs, call.at);
    KnownOperandIsAdmitted(tcx, body, d, types, KnownAtCall(tcx, x, inputs, call.at), op);
    OperandAdmittedExactly(tcx, body, d, types, op);
    OperandMonotone(tcx, body, d, call.d, op);
    BelowAdmits(OperandTracked(tcx, body, d, op), OperandTracked(tcx, body, call.d, op), RealOperand(types, op));
  }

  /** An argument that is admitted where it is passed is admitted where the callee takes it. */
  lemma RegularArgumentFlowsIn(tcx: Tcx, x: Execution, call: CallMade, g: PartialFunction, start: RealTypes, i: nat)
    requires x.c.chain != [] && Bottom(tcx, x.Function()).Some? && |x.runs| == |x.path|
    requires Enters(tcx, x, call, g, start) && !tcx.isClosure(call.target.did) && i < |call.args|
    requires Admits(ArgumentsOf(tcx, x, call)[i], RealOperand(TypesAtCall(x, call.at), call.args[i]))
    ensures i < |g.trackedArgs| && Admits(g.trackedArgs[i], start(ArgumentPlace(i)))
  {
    var tys, declared := RealOperands(TypesAtCall(x, call.at), call.args), DeclaredArgs(tcx, call.target).value;
    assert start(ArgumentPlace(0 + i)) == tys[i];
    MergeAdmitsAt(ArgumentsOf(tcx, x, call), declared, i, tys[i]);
  }

  lemma ClosureArgumentFlowsIn(tcx: Tcx, x: Execution, call: CallMade, g: PartialFunction, start: RealTypes, i: nat)
    requires x.c.chain != [] && Bottom(tcx, x.Function()).Some? && |x.runs| == |x.path|
    requires Enters(tcx, x, call, g, start) && tcx.isClosure(call.target.did)
    requires Admits(ArgumentsOf(tcx, x, call)[1], RealOperand(TypesAtCall(x, call.at), call.args[1]))
    requires var tys := RealOperand(TypesAtCall(x, call.at), call.args[1]).args;
             i < |tys| && FieldArrives(ArgumentsOf(tcx, x, call)[1], tys[i])
    ensures 1 + i < |g.trackedArgs| && Admits(g.trackedArgs[1 + i], start(ArgumentPlace(1 + i)))
  {
    var tuple := RealOperand(TypesAtCall(x, call.at), call.args[1]);
    assert tuple == RealOperands(TypesAtCall(x, call.at), call.args)[1] && tuple == Ty(Tuple, tuple.args);
    ClosureArgumentsAdmit(tcx, call.target, ArgumentsOf(tcx, x, call), call.closures, tuple.args);
    assert start(ArgumentPlace(1 + i)) == tuple.args[i];
  }

  lemma PassedToFunction(tcx: Tcx, l: Ledger, x: Execution, inputs: set<Place>, call: CallMade, g: PartialFunction, start: RealTypes, i: nat)
    requires RunsCertified(tcx, l, x) && EnteredKnowing(tcx, x, inputs) && Enters(tcx, x, call, g, start)
    requires !tcx.isClosure(call.target.did) && i < |call.args|
    requires PassesKnown(StateAtCall(tcx, x, call.at).value, KnownAtCall(tcx, x, inputs, call.at), call.args[i])
    ensures ArgumentPlace(i) in AdmittedInputs(tcx, g, start)
  {
    PassedOperandIsAdmitted(tcx, l, x, inputs, call, i);
    RegularArgumentFlowsIn(tcx, x, call, g, start, i);
  }

  lemma PassedToClosure(tcx: Tcx, l: Ledger, x: Execution, inputs: set<Place>, call: CallMade, g: PartialFunction, start: RealTypes, i: nat)
    requires RunsCertified(tcx, l, x) && EnteredKnowing(tcx, x, inputs) && Enters(tcx, x, call, g, start)
    requires tcx.isClosure(call.target.did)
    requires PassesKnown(StateAtCall(tcx, x, call.at).value, KnownAtCall(tcx, x, inputs, call.at), call.args[1])
    requires var tys := RealOperand(TypesAtCall(x, call.at), call.args[1]).args;
             i < |tys| && FieldArrives(ArgumentsOf(tcx, x, call)[1], tys[i])
    ensures ArgumentPlace(1 + i) in AdmittedInputs(tcx, g, start)
  {
    PassedOperandIsAdmitted(tcx, l, x, inputs, call, 1);
    ClosureArgumentFlowsIn(tcx, x, call, g, start, i);
  }

  lemma PassedOneByOneIsAdmitted(tcx: Tcx, l: Ledger, x: Execution, inputs: set<Place>, call: CallMade, g: PartialFunction, start: RealTypes)
    requires RunsCertified(tcx, l, x) && EnteredKnowing(tcx, x, inputs) && Enters(tcx, x, call, g, start) && !tcx.isClosure(call.target.did)
    ensures PassedOneByOne(StateAtCall(tcx, x, call.at).value, KnownAtCall(tcx, x, inputs, call.at), call.args) <= AdmittedInputs(tcx, g, start)
  {
    var d, known := StateAtCall(tcx, x, call.at).value, KnownAtCall(tcx, x, inputs, call.at);
    forall i: nat | i < |call.args| && PassesKnown(d, known, call.args[i])
      ensures ArgumentPlace(i) in AdmittedInputs(tcx, g, start)
    {
      PassedToFunction(tcx, l, x, inputs, call, g, start, i);
    }
  }

  lemma PassedInTupleIsAdmitted(tcx: Tcx, l: Ledger, x: Execution, inputs: set<Place>, call: CallMade, g: PartialFunction, start: RealTypes)
    requires RunsCertified(tcx, l, x) && EnteredKnowing(tcx, x, inputs) && Enters(tcx, x, call, g, start) && tcx.isClosure(call.target.did)
    ensures PassedInTuple(StateAtCall(tcx, x, call.at).value, KnownAtCall(tcx, x, inputs, call.at), call.args, ArgumentsOf(tcx, x, call),
                          RealOperands(TypesAtCall(x, call.at), call.args)) <= AdmittedInputs(tcx, g, start)
  {
    var d, known, tracked := StateAtCall(tcx, x, call.at).value, KnownAtCall(tcx, x, inputs, call.at), ArgumentsOf(tcx, x, call);
    var tuple := RealOperand(TypesAtCall(x, call.at), call.args[1]);
    forall i: nat | i < |tuple.args| && PassesKnown(d, known, call.args[1]) && FieldArrives(tracked[1], tuple.args[i])
      ensures ArgumentPlace(1 + i) in AdmittedInputs(tcx, g, start)
    {
      PassedToClosure(tcx, l, x, inputs, call, g, start, i);
    }
  }

  /** What is known where `y` starts, called by `x`. */
  ghost function KnownInCallee(tcx: Tcx, l: Ledger, x: Execution, inputs: set<Place>, call: CallMade, y: Execution): set<Place>
    requires RunsCertified(tcx, l, x) && RunsCertified(tcx, l, y) && Calls(tcx, x, call)
  {
    PassedOn(tcx, x, inputs, call) + CapturesKnown(tcx, y.Function(), y.start)
  }

  /** What is known in the caller where it calls is known in the callee where it starts, and so are captures the
      closure storage had recorded by then. */
  lemma KnownTypesFlowIn(tcx: Tcx, l: Ledger, x: Execution, inputs: set<Place>, call: CallMade, y: Execution)
    requires RunsCertified(tcx, l, x) && EnteredKnowing(tcx, x, inputs) && RunsCertified(tcx, l, y)
    requires Enters(tcx, x, call, y.Function(), y.start)
    ensures EnteredKnowing(tcx, y, KnownInCallee(tcx, l, x, inputs, call, y))
  {
    if tcx.isClosure(call.target.did) {
      PassedInTupleIsAdmitted(tcx, l, x, inputs, call, y.Function(), y.start);
    } else {
      PassedOneByOneIsAdmitted(tcx, l, x, inputs, call, y.Function(), y.start);
    }
    StartKnowsAdmitted(tcx, l, y, KnownInCallee(tcx, l, x, inputs, call, y));
  }

  lemma StartKnowsAdmitted(tcx: Tcx, l: Ledger, y: Execution, inputs: set<Place>)
    requires RunsCertified(tcx, l, y) && inputs <= AdmittedInputs(tcx, y.Function(), y.start)
    ensures EnteredKnowing(tcx, y, inputs)
  {
    InputsStartKnown(tcx, y.Function(), y.start);
  }

  // ---------------------------------------------------------------------------------------
  // Stacks of calls

  /** A stack of executions: each is of the function that the one below calls, as that call was resolved. */
  datatype CallStack =
    | Outermost(top: Execution)
    | Inner(below: CallStack, call: CallMade, top: Execution)

  ghost predicate IsCallStack(tcx: Tcx, l: Ledger, s: CallStack) {
    && RunsCertified(tcx, l, s.top)
    && (s.Inner? ==>
          && IsCallStack(tcx, l, s.below)
          && Enters(tcx, s.below.top, s.call, s.top.Function(), s.top.start))
  }

  /** What is known where the top of the stack starts, when nothing but declared types is known at the bottom. */
  ghost function KnownOnEntry(tcx: Tcx, l: Ledger, s: CallStack): set<Place>
    requires IsCallStack(tcx, l, s)
  {
    match s
    case Outermost(_) => {}
    case Inner(below, call, top) => KnownInCallee(tcx, l, below.top, KnownOnEntry(tcx, l, below), call, top)
  }

  lemma {:induction false} StackIsEnteredKnowing(tcx: Tcx, l: Ledger, s: CallStack)
    requires IsCallStack(tcx, l, s)
    ensures EnteredKnowing(tcx, s.top, KnownOnEntry(tcx, l, s))
  {
    match s
    case Outermost(_) =>
    case Inner(below, call, top) =>
      StackIsEnteredKnowing(tcx, l, below);
      KnownTypesFlowIn(tcx, l, below.top, KnownOnEntry(tcx, l, below), call, top);
  }

  /** However deep the stack of calls, of regular functions or closures: the summary of the function on top admits
      the types at all places that are known when it ends. */
  lemma TypesFlowDownTheStack(tcx: Tcx, l: Ledger, s: CallStack)
    requires IsCallStack(tcx, l, s)
    ensures KnownTypes(JoinAll(s.top.c.ends.steps), s.top.End(), KnownAtEnd(tcx, s.top, KnownOnEntry(tcx, l, s)))
  {
    StackIsEnteredKnowing(tcx, l, s);
    ActualTypesAreTracked(tcx, l, s.top, KnownOnEntry(tcx, l, s));
  }

  // ---------------------------------------------------------------------------------------
  // Back to the caller

  /** What the call brings back is the return type of the summary. */
  ghost predicate BringsBack(tcx: Tcx, y: Execution, e: CallEffect)
    requires y.c.chain != [] && y.c.ends.steps != []
  {
    e.Called? && e.returned.Some? && e.returned == ReturnType(tcx, tcx.bodyOf(y.Function().instance), JoinAll(y.c.ends.steps).places)
  }

  /** The type of the returned value is known, or declared and hides nothing. */
  ghost predicate ReturnIsKnownAtEnd(tcx: Tcx, y: Execution, inputs: set<Place>)
    requires y.c.chain != [] && Bottom(tcx, y.Function()).Some? && y.path != [] && |y.runs| == |y.path|
  {
    var declared := tcx.placeTy(tcx.bodyOf(y.Function().instance), RETURN_PLACE);
    if ContainsErased(declared) then RETURN_PLACE in KnownAtEnd(tcx, y, inputs) else y.End()(RETURN_PLACE) == declared
  }

  /** The type a call brings back from a summary admits the one really returned. */
  lemma ReturnFlowsOut(tcx: Tcx, l: Ledger, y: Execution, inputs: set<Place>, es: seq<CallEffect>, e: CallEffect)
    requires RunsCertified(tcx, l, y) && EnteredKnowing(tcx, y, inputs) && ReturnIsKnownAtEnd(tcx, y, inputs)
    requires e in es && BringsBack(tcx, y, e)
    ensures Returns(es, y.End()(RETURN_PLACE))
  {
    ActualTypesAreTracked(tcx, l, y, inputs);
    assert Admits(e.returned.value, y.End()(RETURN_PLACE));
  }

  /** Where the call returns its value. */
  function DestinationOf(tcx: Tcx, x: Execution, call: CallMade): Option<Place>
    requires x.c.chain != [] && call.at < |x.path|
  {
    var blocks := tcx.bodyOf(x.c.chain[|x.c.chain| - 1].instance).blocks;
    if x.path[call.at] < |blocks| then Destination(blocks[x.path[call.at]].terminator) else None
  }

  /** Across a call: if what the callee returns is known there, from what is known where it is called, then it
      is known where it is returned to, whatever else is known in the caller. The summary has to be that of the
      callee as this call resolved it; a summary is also reused for other arguments of the same instance. */
  lemma TypesFlowThroughCall(tcx: Tcx, l: Ledger, x: Execution, inputs: set<Place>, call: CallMade, y: Execution, e: CallEffect,
                             d: Domain, known: set<Place>)
    requires RunsCertified(tcx, l, x) && EnteredKnowing(tcx, x, inputs) && RunsCertified(tcx, l, y)
    requires Enters(tcx, x, call, y.Function(), y.start)
    requires ReturnIsKnownAtEnd(tcx, y, KnownInCallee(tcx, l, x, inputs, call, y))
    requires e in x.effects(x.path[call.at]) && BringsBack(tcx, y, e)
    requires DestinationOf(tcx, x, call).Some?
    requires x.runs[call.at].after(DestinationOf(tcx, x, call).value) == y.End()(RETURN_PLACE)
    ensures var b := x.path[call.at];
            DestinationOf(tcx, x, call).value in KnownAfterBlock(SettingOf(tcx, x.Function()), d, known, b, x.effects(b), x.runs[call.at])
  {
    KnownTypesFlowIn(tcx, l, x, inputs, call, y);
    ReturnFlowsOut(tcx, l, y, KnownInCallee(tcx, l, x, inputs, call, y), x.effects(x.path[call.at]), e);
    ReturnedIsKnown(SettingOf(tcx, x.Function()), d, known, x.path[call.at], x.effects(x.path[call.at]), x.runs[call.at], DestinationOf(tcx, x, call).value);
  }

  lemma ReturnedIsKnown(s: Setting, d: Domain, known: set<Place>, b: nat, es: seq<CallEffect>, run: BlockRun, p: Place)
    requires RunsBlock(s, b, run) && Destination(s.body.blocks[b].terminator) == Some(p) && Returns(es, run.after(p))
    ensures p in KnownAfterBlock(s, d, known, b, es, run)
  {
  }
}
