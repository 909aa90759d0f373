/** Executions of the collected recursive function, on the way of which a number is converted, a call is skipped,
    and a trait object is made: what is said about all executions is said about these. */
module ExecutedPrograms {
  import opened Options
  import opened Types
  import opened TrackedTypes
  import opened Mir
  import opened Domains
  import opened CollectorDomains
  import opened Transfers
  import opened Dataflow
  import opened FunctionStorage
  import opened ClosureStorage
  import opened Resolution
  import opened Evidence
  import opened Summaries
  import opened Failures
  import opened Ceilings
  import opened Collectors
  import opened TypeSoundness
  import opened PathTypes
  import opened Counterexamples
  import opened RecursivePrograms
  import opened EndToEnd
  import opened Executions

  // ---------------------------------------------------------------------------------------
  // States on the way

  /** Below the ceiling no statement panics, and none leaves it. */
  lemma FStatementRuns(d: Domain, stmt: Statement)
    requires Leq(d, F_TOP) && stmt in F_BODY.blocks[0].statements
    ensures StatementEffect(FTcx(), F_BODY, [], d, stmt).Some?
    ensures Leq(StatementEffect(FTcx(), F_BODY, [], d, stmt).value, F_TOP)
  {
    StatementsChangeNothing(stmt);
    FRvaluesAreTracked(d, stmt);
    RvalueMonotone(FTcx(), F_BODY, [], d, F_TOP, stmt.rvalue);
    UpdateMonotone(FTcx(), F_BODY, d, F_TOP, stmt.place, RvalueTracked(FTcx(), F_BODY, [], d, stmt.rvalue).value,
                   RvalueTracked(FTcx(), F_BODY, [], F_TOP, stmt.rvalue).value);
  }

  lemma {:induction false} FStatementsRun(d: Domain, stmts: seq<Statement>)
    requires Leq(d, F_TOP) && forall k | 0 <= k < |stmts| :: stmts[k] in F_BODY.blocks[0].statements
    ensures AfterStatements(FTcx(), F_BODY, [], d, stmts).Some?
    ensures Leq(AfterStatements(FTcx(), F_BODY, [], d, stmts).value, F_TOP)
    decreases |stmts|
  {
    if stmts != [] {
      FStatementRuns(d, stmts[0]);
      FStatementsRun(StatementEffect(FTcx(), F_BODY, [], d, stmts[0]).value, stmts[1..]);
    }
  }

  /** A call that is skipped, or not counted on, does nothing. */
  function NoEffects(): nat -> seq<CallEffect> {
    (b: nat) => []
  }

  lemma FBlockRuns(d: Domain, b: nat)
    requires Leq(d, F_TOP) && b < 2
    ensures BlockEffect(FTcx(), F_BODY, [], d, b, []).Some? && Leq(BlockEffect(FTcx(), F_BODY, [], d, b, []).value, F_TOP)
  {
    FStatementsRun(d, F_BODY.blocks[b].statements);
  }

  const F_PATH: seq<nat> := [0, 1]

  function FSetting(bottom: Domain): Setting {
    Setting(FTcx(), F_BODY, [], bottom)
  }

  lemma FPathRuns(bottom: Domain)
    requires Leq(bottom, F_TOP)
    ensures PathRuns(FSetting(bottom), FixedTransfer(FSetting(bottom), NoEffects()), F_PATH)
    ensures Leq(PathState(FixedTransfer(FSetting(bottom), NoEffects()), bottom, F_PATH).value, F_TOP)
  {
    var e := FSetting(bottom);
    var f := FixedTransfer(e, NoEffects());
    FBlockRuns(bottom, 0);
    var d := BlockEffect(FTcx(), F_BODY, [], bottom, 0, []).value;
    FBlockRuns(d, 1);
    assert F_PATH[..1] == [0] && PathState(f, bottom, [0]) == Some(bottom);
    assert PathState(f, bottom, F_PATH) == f(0, bottom) == Some(d);
    assert f(1, d) == BlockEffect(FTcx(), F_BODY, [], d, 1, []);
  }

  // ---------------------------------------------------------------------------------------
  // Types on the way

  /** The argument is a reference of this type, and so is the object; the number is an `i32` and referred to. */
  function FTypes(argument: Ty, viewed: Ty): RealTypes {
    (p: Place) =>
      var ty := ProjectTy(FTcx(), LocalTy(argument, viewed, p.local), None, p.proj);
      if ty.Some? then ty.value else I32
  }

  function LocalTy(argument: Ty, viewed: Ty, local: nat): Ty {
    if local == 1 then argument else if local == 3 then I32_REF else if local == 4 then viewed else I32
  }

  lemma {:induction false} NothingInsideNumber(variant: Option<nat>, tail: seq<Elem>)
    ensures var pty := ProjectAll(FTcx(), PlaceTy(I32, variant), tail);
            pty.Some? ==> pty.value.ty == I32
    decreases |tail|
  {
    if tail != [] {
      var next := Project(FTcx(), PlaceTy(I32, variant), tail[0]);
      if next.Some? {
        assert next.value.ty == I32;
        NothingInsideNumber(next.value.variant, tail[1..]);
      }
    }
  }

  lemma FTypesFit(argument: Ty, viewed: Ty, p: Place, q: Place)
    requires Extends(p, q) && Inside(FTcx(), p, FTypes(argument, viewed)(p), q).Some?
    ensures FTypes(argument, viewed)(q) == Inside(FTcx(), p, FTypes(argument, viewed)(p), q).value
  {
    var tcx, root, local := FTcx(), Place(p.local, []), LocalTy(argument, viewed, p.local);
    assert Tail(root, p) == p.proj && Tail(root, q) == q.proj;
    if ProjectTy(tcx, local, None, p.proj).Some? {
      ProjectThrough(tcx, local, root, p, q);
    } else {
      assert q.proj == p.proj + Tail(p, q);
      ProjectAllComposes(tcx, PlaceTy(local, None), p.proj, Tail(p, q));
      NothingInsideNumber(VariantOf(p), Tail(p, q));
    }
  }

  lemma FTypesAre(argument: Ty, viewed: Ty)
    ensures var types := FTypes(argument, viewed);
            && types(RESULT) == I32 && types(ARGUMENT) == argument && types(NUMBER) == I32
            && types(REFERENCE) == I32_REF && types(OBJECT) == viewed
  {
    var tcx := FTcx();
    ProjectSelf(tcx, I32, RESULT);
    ProjectSelf(tcx, argument, ARGUMENT);
    ProjectSelf(tcx, I32_REF, REFERENCE);
    ProjectSelf(tcx, viewed, OBJECT);
  }

  lemma FTargetTypesAre(argument: Ty, viewed: Ty)
    ensures FTypes(argument, viewed)(REFERENCE_TARGET) == I32
    ensures viewed == I32_REF ==> FTypes(argument, viewed)(OBJECT_TARGET) == I32
  {
    ReferenceProjects();
  }

  /** In all states below the ceiling these are types the places may have. */
  lemma FIsMoment(d: Domain, argument: Ty, viewed: Ty)
    requires Leq(d, F_TOP)
    ensures IsMoment(FTcx(), d, FTypes(argument, viewed))
  {
    var tcx, types := FTcx(), FTypes(argument, viewed);
    forall p, q | Extends(p, q) && Inside(tcx, p, types(p), q).Some?
      ensures Fits(types(q), Inside(tcx, p, types(p), q).value)
    {
      FTypesFit(argument, viewed, p, q);
    }
    forall q | HasOneType(d, q)
      ensures types(q) == d.places[q].ty
    {
      ShapeStays(d, F_TOP);
      FTypesAre(argument, viewed);
      FTargetTypesAre(argument, viewed);
    }
  }

  // ---------------------------------------------------------------------------------------
  // The execution

  /** The object is of another type until it is made of the reference. */
  function FRuns(argument: Ty): seq<BlockRun> {
    var before, after := FTypes(argument, BOOL_REF), FTypes(argument, I32_REF);
    [BlockRun([before, before, before, after], after), BlockRun([after, after], after)]
  }

  lemma FOneTypes(d: Domain)
    requires Leq(d, F_TOP)
    ensures HasOneType(d, NUMBER) && HasOneType(d, REFERENCE) && HasOneType(d, RESULT)
    ensures OBJECT in d.places && !HasOneType(d, OBJECT) && d.places[REFERENCE] == Present(I32_REF)
  {
    ShapeStays(d, F_TOP);
  }

  lemma NothingChanges(d: Domain, types: RealTypes, stmt: Statement)
    requires Leq(d, F_TOP) && stmt in [SET_NUMBER, SET_REFERENCE]
    ensures Executes(FTcx(), F_BODY, [], d, types, stmt, types)
  {
    FOneTypes(d);
  }

  lemma ObjectIsMade(d: Domain, argument: Ty, viewed: Ty)
    ensures Executes(FTcx(), F_BODY, [], d, FTypes(argument, viewed), SET_OBJECT, FTypes(argument, I32_REF))
  {
    var types, types' := FTypes(argument, viewed), FTypes(argument, I32_REF);
    FTypesAre(argument, viewed);
    FTypesAre(argument, I32_REF);
    forall q | !MayChange(FTcx(), F_BODY, types, OBJECT, q)
      ensures types'(q) == types(q)
    {
      assert !Extends(OBJECT, q);
    }
  }

  lemma FirstBlockIsExecuted(bottom: Domain, argument: Ty)
    requires Leq(bottom, F_TOP)
    ensures RunsBlock(FSetting(bottom), 0, FRuns(argument)[0])
  {
    var stmts, moments := F_BODY.blocks[0].statements, FRuns(argument)[0].moments;
    var before, after := FTypes(argument, BOOL_REF), FTypes(argument, I32_REF);
    FIsMoment(bottom, argument, BOOL_REF);
    FIsMoment(bottom, argument, I32_REF);
    NothingChanges(bottom, before, SET_NUMBER);
    NothingChanges(bottom, before, SET_REFERENCE);
    ObjectIsMade(bottom, argument, BOOL_REF);
    forall k | 0 <= k < |stmts|
      ensures RunsStatement(FTcx(), F_BODY, [], bottom, stmts, moments, k)
    {
      assert k == 0 || k == 1 || k == 2;
    }
  }

  lemma SecondBlockIsExecuted(bottom: Domain, argument: Ty)
    requires Leq(bottom, F_TOP)
    ensures RunsBlock(FSetting(bottom), 1, FRuns(argument)[1])
  {
    FIsMoment(bottom, argument, I32_REF);
    ObjectIsMade(bottom, argument, I32_REF);
    assert RunsStatement(FTcx(), F_BODY, [], bottom, [SET_OBJECT], FRuns(argument)[1].moments, 0);
  }

  lemma FPathIsExecuted(bottom: Domain, argument: Ty)
    requires Leq(bottom, F_TOP)
    ensures RunsPath(FSetting(bottom), FTypes(argument, BOOL_REF), F_PATH, FRuns(argument))
  {
    FirstBlockIsExecuted(bottom, argument);
    SecondBlockIsExecuted(bottom, argument);
    var e, start, runs := FSetting(bottom), FTypes(argument, BOOL_REF), FRuns(argument);
    forall n | 0 <= n < |F_PATH|
      ensures RunsBlock(e, F_PATH[n], runs[n])
      ensures forall q :: runs[n].moments[0](q) == EnteredAt(start, runs, n)(q)
    {
      assert n == 0 || n == 1;
    }
  }

  /** The execution of `f` with an argument of that type behind its trait object, as an analysis sees it. */
  function FExecution(c: Certificate, argument: Ty): Execution {
    Execution(c, NoEffects(), FTypes(argument, BOOL_REF), F_PATH, FRuns(argument))
  }

  /** Whatever analysis of `f` a certificate is about, the execution is one. */
  lemma FIsExecuted(l: Ledger, c: Certificate, argument: Ty)
    requires ValidCertificate(FTcx(), l, c) && c.Function() in F_CEILING.functions
    ensures RunsCertified(FTcx(), l, FExecution(c, argument))
  {
    var bottom := Bottom(FTcx(), c.Function()).value;
    FStarts(c.Function());
    FPathRuns(bottom);
    FPathIsExecuted(bottom, argument);
    FStartsAs(bottom, argument);
    NothingIsCountedOn(FSetting(bottom), c.run.steps, c.ends.steps);
  }

  lemma FStarts(f: PartialFunction)
    requires f in F_CEILING.functions
    ensures Bottom(FTcx(), f).Some? && Leq(Bottom(FTcx(), f).value, F_TOP)
    ensures SettingOf(FTcx(), f) == FSetting(Bottom(FTcx(), f).value)
  {
    StartsBelowTop(f.trackedArgs[0].deps);
  }

  lemma NothingIsCountedOn(e: Setting, trace: seq<Step>, ends: seq<Step>)
    ensures FinallyDid(e, trace, ends, NoEffects())
  {
  }

  lemma FStartsAs(d: Domain, argument: Ty)
    requires Leq(d, F_TOP)
    ensures AllTracked(d) && InteriorsExtend(FTcx(), F_BODY) && IsMoment(FTcx(), d, FTypes(argument, BOOL_REF))
  {
    Hides();
    ShapeStays(d, F_TOP);
    FIsMoment(d, argument, BOOL_REF);
  }

  lemma ObjectArrives(d: Domain, known: set<Place>, argument: Ty, viewed: Ty)
    requires Leq(d, F_TOP)
    ensures {OBJECT, OBJECT_TARGET} <=
            KnownAfterStatement(FTcx(), F_BODY, d, FTypes(argument, viewed), known, SET_OBJECT, FTypes(argument, I32_REF))
  {
    var types := FTypes(argument, I32_REF);
    FOneTypes(d);
    FTypesAre(argument, I32_REF);
    FTargetTypesAre(argument, I32_REF);
    ReferenceProjects();
    assert TypedOperands(SET_OBJECT.rvalue) == [Copy(REFERENCE)];
    assert Arrives(FTcx(), F_BODY, d, known, OBJECT, SET_OBJECT.rvalue, types(OBJECT));
    assert IsRef(I32_REF) && DerefOf(OBJECT) == OBJECT_TARGET;
    assert Tail(OBJECT, OBJECT_TARGET) == [Deref];
    assert Inside(FTcx(), OBJECT, types(OBJECT), OBJECT_TARGET) == Some(types(OBJECT_TARGET));
  }

  /** What is known after the statements is what is known after the last one. */
  lemma {:induction false} KnownAfterTheLast(tcx: Tcx, body: Body, substs: seq<Ty>, d: Domain, known: set<Place>, stmts: seq<Statement>,
                                             moments: seq<RealTypes>)
    returns (d': Domain, known': set<Place>)
    requires stmts != [] && |moments| == |stmts| + 1 && AfterStatements(tcx, body, substs, d, stmts).Some?
    ensures var n := |stmts| - 1;
            && AfterStatements(tcx, body, substs, d, stmts[..n]) == Some(d')
            && KnownAfterStatements(tcx, body, substs, d, known, stmts, moments)
               == KnownAfterStatement(tcx, body, d', moments[n], known', stmts[n], moments[n + 1])
    decreases |stmts|
  {
    var next := StatementEffect(tcx, body, substs, d, stmts[0]).value;
    var after := KnownAfterStatement(tcx, body, d, moments[0], known, stmts[0], moments[1]);
    if |stmts| == 1 {
      d', known' := d, known;
      assert KnownAfterStatements(tcx, body, substs, next, after, stmts[1..], moments[1..]) == after;
    } else {
      d', known' := KnownAfterTheLast(tcx, body, substs, next, after, stmts[1..], moments[1..]);
      assert stmts[..|stmts| - 1][1..] == stmts[1..][..|stmts| - 2];
    }
  }

  /** If the last statement of a block makes the object, it is known then. */
  lemma ObjectArrivesAtLast(d: Domain, known: set<Place>, stmts: seq<Statement>, moments: seq<RealTypes>, argument: Ty, viewed: Ty)
    requires Leq(d, F_TOP) && |moments| == |stmts| + 1 && stmts != [] && stmts[|stmts| - 1] == SET_OBJECT
    requires forall k | 0 <= k < |stmts| :: stmts[k] in F_BODY.blocks[0].statements
    requires moments[|stmts| - 1] == FTypes(argument, viewed) && moments[|stmts|] == FTypes(argument, I32_REF)
    ensures {OBJECT, OBJECT_TARGET} <= KnownAfterStatements(FTcx(), F_BODY, [], d, known, stmts, moments)
  {
    FStatementsRun(d, stmts);
    FStatementsRun(d, stmts[..|stmts| - 1]);
    var d', known' := KnownAfterTheLast(FTcx(), F_BODY, [], d, known, stmts, moments);
    ObjectArrives(d', known', argument, viewed);
  }

  /** In the end the object and what it points to are known, though a callee may have changed them between. */
  lemma ObjectIsKnown(bottom: Domain, argument: Ty, inputs: set<Place>)
    requires Leq(bottom, F_TOP)
    ensures {OBJECT, OBJECT_TARGET} <= KnownInTheEnd(FSetting(bottom), NoEffects(), inputs, F_PATH, FRuns(argument))
  {
    var e := FSetting(bottom);
    FPathRuns(bottom);
    var d, known := PathState(FixedTransfer(e, NoEffects()), bottom, F_PATH).value, KnownBefore(e, NoEffects(), inputs, F_PATH, FRuns(argument));
    ObjectArrivesAtLast(d, known, [SET_OBJECT], FRuns(argument)[1].moments, argument, I32_REF);
    NothingIsForgotten(e, d, known, FRuns(argument)[1]);
  }

  lemma NothingIsForgotten(e: Setting, d: Domain, known: set<Place>, run: BlockRun)
    requires e.body == F_BODY && |run.moments| == 2
    ensures KnownAfterBlock(e, d, known, 1, [], run) == KnownAtTerminator(e, d, known, 1, run)
  {
  }

  // ---------------------------------------------------------------------------------------
  // The call on the way

  /** The state the call of the execution is met in, and what is known then. */
  lemma FComesToCall(l: Ledger, c: Certificate, argument: Ty, inputs: set<Place>)
    requires ValidCertificate(FTcx(), l, c) && c.Function() in F_CEILING.functions
    ensures var x := FExecution(c, argument);
            && StateAtCall(FTcx(), x, 0).Some? && OBJECT in StateAtCall(FTcx(), x, 0).value.places
            && StateAtCall(FTcx(), x, 0).value.places[OBJECT] == Erased({I32_REF})
            && OBJECT in KnownAtCall(FTcx(), x, inputs, 0)
  {
    var bottom, stmts := Bottom(FTcx(), c.Function()).value, F_BODY.blocks[0].statements;
    FStarts(c.Function());
    FirstBlockOfPath(bottom);
    ObjectIsMadeInFirstBlock(bottom);
    ObjectArrivesAtLast(bottom, inputs, stmts, FRuns(argument)[0].moments, argument, BOOL_REF);
  }

  lemma ObjectIsMadeInFirstBlock(d: Domain)
    requires Leq(d, F_TOP)
    ensures var d' := AfterStatements(FTcx(), F_BODY, [], d, F_BODY.blocks[0].statements);
            d'.Some? && OBJECT in d'.value.places && d'.value.places[OBJECT] == Erased({I32_REF})
  {
    FStatementsRun(d, F_BODY.blocks[0].statements);
    ObjectIsReference(d);
  }

  lemma FirstBlockOfPath(bottom: Domain)
    ensures F_PATH[..1] == [0] && PathState(FixedTransfer(FSetting(bottom), NoEffects()), bottom, [0]) == Some(bottom)
  {
  }

  lemma FPasses(argument: Ty, viewed: Ty)
    ensures RealOperands(FTypes(argument, I32_REF), [Move(OBJECT)]) == [I32_REF]
    ensures PassedTypes(FTcx(), F, [I32_REF], FTypes(I32_REF, viewed), 0)
  {
    Hides();
    FTypesAre(argument, I32_REF);
    FTypesAre(I32_REF, viewed);
    assert DeclaredArgs(FTcx(), F).value == [Erased({})];
    assert ArgumentPlace(0) == ARGUMENT;
  }

  /** The call is one of `f` with an `&i32`. */
  lemma FEnters(outer: Certificate, argument: Ty, d: Domain, closures: Closures)
    requires outer.chain != [] && outer.Function() in F_CEILING.functions && Bottom(FTcx(), outer.Function()).Some?
    requires StateAtCall(FTcx(), FExecution(outer, argument), 0) == Some(d)
    requires OBJECT in d.places && d.places[OBJECT] == Erased({I32_REF})
    ensures Enters(FTcx(), FExecution(outer, argument), CallMade(0, [Move(OBJECT)], d, F, closures), EnteredWith({I32_REF}),
                   FTypes(I32_REF, BOOL_REF))
  {
    var x, call := FExecution(outer, argument), CallMade(0, [Move(OBJECT)], d, F, closures);
    LeqReflexive(d);
    assert Calls(FTcx(), x, call);
    assert ArgumentsOf(FTcx(), x, call) == [Erased({I32_REF})];
    FAssembles(outer.Function(), {I32_REF}, closures);
    FPasses(argument, BOOL_REF);
    assert TypesAtCall(x, 0) == FTypes(argument, I32_REF);
  }

  /** The execution of the outer analysis calls that of the inner one, where the type of the argument is known. */
  lemma FCallsF(l: Ledger, outer: Certificate, inner: Certificate, argument: Ty, d: Domain, closures: Closures)
    requires ValidCertificate(FTcx(), l, outer) && outer.Function() == EnteredWith({})
    requires ValidCertificate(FTcx(), l, inner) && inner.Function() == EnteredWith({I32_REF})
    requires StateAtCall(FTcx(), FExecution(outer, argument), 0) == Some(d)
    ensures var call := CallMade(0, [Move(OBJECT)], d, F, closures);
            var s := Inner(Outermost(FExecution(outer, argument)), call, FExecution(inner, I32_REF));
            IsCallStack(FTcx(), l, s) && ARGUMENT in KnownOnEntry(FTcx(), l, s)
  {
    var x, call := FExecution(outer, argument), CallMade(0, [Move(OBJECT)], d, F, closures);
    FIsExecuted(l, outer, argument);
    FIsExecuted(l, inner, I32_REF);
    FComesToCall(l, outer, argument, {});
    FEnters(outer, argument, d, closures);
    assert IsCallStack(FTcx(), l, Outermost(x));
    assert PassesKnown(d, KnownAtCall(FTcx(), x, {}, 0), call.args[0]);
    assert ArgumentPlace(0) in PassedOneByOne(d, KnownAtCall(FTcx(), x, {}, 0), call.args);
  }

  lemma OnlyTwoAnalyses(u: Universe, l: Ledger, d: Domain, c: Certificate)
    requires u == UniverseOf(F_CEILING) && Evident(FTcx(), u, l, [], F, d, c)
    ensures c.Function() == EnteredWith({}) || c.Function() == EnteredWith({I32_REF})
  {
    assert LiveOrStored(u, l.fns, [], Last(c.chain));
  }

  /** An analysis of `f` that recorded no call of itself is that of the inner run. */
  lemma InnerAnalysis(u: Universe, l: Ledger, d: Domain, c: Certificate)
    requires u == UniverseOf(F_CEILING) && l.origin == F && Evident(FTcx(), u, l, [], F, d, c) && F_CALL !in d.calls
    ensures c.Function() == EnteredWith({I32_REF})
  {
    OnlyTwoAnalyses(u, l, d, c);
    if c.Function() == EnteredWith({}) {
      OutermostIsAlone(l, c.chain);
      OuterRunCallsItself(l, d, c);
    }
  }

  lemma OutermostIsAlone(l: Ledger, chain: seq<PartialFunction>)
    requires l.origin == F && IsChain(FTcx(), l, chain) && chain != [] && Last(chain) == EnteredWith({})
    ensures chain == [OriginFunction(FTcx(), F)]
  {
    OriginOfF();
    assert StackOf(chain)[0] == StackOf(chain)[|chain| - 1];
  }

  /** Among the stored summaries there is one of an inner run. */
  lemma InnerSummary(l: Ledger, results: Domain, c: Certificate) returns (k: nat, inner: Certificate)
    requires StorageOk(FTcx(), UniverseOf(F_CEILING), l, []) && l.origin == F
    requires Contains(l.fns, SummaryOf(FTcx(), F, results))
    requires CertifiedBy(FTcx(), l, F, results, c) && c.chain == [OriginFunction(FTcx(), F)]
    ensures k < |l.fns| && IsSummaryOf(l.fns[k], F) && CertifiedBy(FTcx(), l, F, DomainOf(l.fns[k]), inner)
    ensures inner.Function() == EnteredWith({I32_REF})
  {
    OuterRunCallsItself(l, results, c);
    RecursionIsJudgedInside(FTcx(), l.fns, F, results, [Move(OBJECT)]);
    k := FindInstance(l.fns, F).value;
    inner := CertificateOf(FTcx(), UniverseOf(F_CEILING), l, [], k);
    InnerAnalysis(UniverseOf(F_CEILING), l, DomainOf(l.fns[k]), inner);
  }

  /** The collection of `f` succeeds, and has certificates of analyses whose functions are executed, one calling the
      other; the summary of the inner one admits the type of the object it makes in the end. */
  method FRunsInItself() returns (fns: seq<FunctionInfo>, ghost l: Ledger, ghost s: CallStack)
    ensures l.fns == fns && IsCallStack(FTcx(), l, s) && s.Inner? && s.below.Outermost?
    ensures ARGUMENT in KnownOnEntry(FTcx(), l, s)
    ensures {OBJECT, OBJECT_TARGET} <= KnownAtEnd(FTcx(), s.top, KnownOnEntry(FTcx(), l, s))
    ensures exists k :: 0 <= k < |fns| && IsSummaryOf(fns[k], F) && DomainOf(fns[k]) == JoinAll(s.top.c.ends.steps)
                        && OBJECT in fns[k].places && Admits(fns[k].places[OBJECT], s.top.End()(OBJECT))
  {
    FIsCollected();
    var ok, functions, closures;
    ghost var history, results, c, before, x;
    ok, functions, closures, history, results, c, before, x := Collect(FTcx(), F, UniverseOf(F_CEILING));
    fns := functions.fns;
    l := Ledger(F, fns, history);
    ghost var k, inner := InnerSummary(l, results, c);
    s := FStack(l, c, inner);
    TypesFlowDownTheStack(FTcx(), l, s);
  }

  lemma FStack(l: Ledger, outer: Certificate, inner: Certificate) returns (s: CallStack)
    requires ValidCertificate(FTcx(), l, outer) && outer.chain == [OriginFunction(FTcx(), F)]
    requires ValidCertificate(FTcx(), l, inner) && inner.Function() == EnteredWith({I32_REF})
    ensures IsCallStack(FTcx(), l, s) && s.Inner? && s.below.Outermost? && s.top.c == inner
    ensures ARGUMENT in KnownOnEntry(FTcx(), l, s)
    ensures {OBJECT, OBJECT_TARGET} <= KnownAtEnd(FTcx(), s.top, KnownOnEntry(FTcx(), l, s))
  {
    OriginOfF();
    FComesToCall(l, outer, BOOL_REF, {});
    var d := StateAtCall(FTcx(), FExecution(outer, BOOL_REF), 0).value;
    FCallsF(l, outer, inner, BOOL_REF, d, map[]);
    s := Inner(Outermost(FExecution(outer, BOOL_REF)), CallMade(0, [Move(OBJECT)], d, F, map[]), FExecution(inner, I32_REF));
    FEndsKnown(l, s, inner);
  }

  lemma FEndsKnown(l: Ledger, s: CallStack, c: Certificate)
    requires IsCallStack(FTcx(), l, s) && s.top == FExecution(c, I32_REF) && c.Function() == EnteredWith({I32_REF})
    ensures {OBJECT, OBJECT_TARGET} <= KnownAtEnd(FTcx(), s.top, KnownOnEntry(FTcx(), l, s))
  {
    FStarts(c.Function());
    ObjectIsKnown(Bottom(FTcx(), c.Function()).value, I32_REF, KnownOnEntry(FTcx(), l, s));
  }
}
