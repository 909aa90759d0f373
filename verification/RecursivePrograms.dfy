/** Two functions that call themselves, collected to the end. The first is judged by the summary of its
    inner run; of the second one instance that is called is never analyzed. */
module RecursivePrograms {
  import opened Options
  import opened Types
  import opened TrackedTypes
  import opened Mir
  import opened Domains
  import opened CollectorDomains
  import opened Transfers
  import opened Dataflow
  import opened FunctionStorage
  import opened ClosureStorage
  import opened Resolution
  import opened Evidence
  import opened Summaries
  import opened Failures
  import opened Ceilings
  import opened Collectors
  import opened Counterexamples
  import opened EndToEnd

  lemma OnlyOneResolved(tcx: Tcx, caller: PartialFunction, at: seq<Ty>, args: seq<TrackedTy>, closures: Closures,
                        instance: Instance, g: PartialFunction)
    requires CandidateInstances(tcx, 0, at, args) == Some({instance})
    requires Assemble(tcx, instance, args, closures) == Fine(g) && Instantiate(tcx, caller, g) == Some(g)
    ensures Resolve(tcx, caller, 0, at, args, closures) == Fine({g})
  {
    var fns := AssembleAll(tcx, {instance}, args, closures);
    assert fns.Fine? && fns.value == {g} by {
      assert instance in {instance};
    }
    var resolved := Resolve(tcx, caller, 0, at, args, closures);
    assert resolved.Fine? && resolved.value == {g} by {
      assert g in fns.value;
    }
  }

  /** If the outer run recorded a call of the origin's own instance, the lookup does not give its
      summary, and the summary it gives records no such call. */
  lemma RecursionIsJudgedInside(tcx: Tcx, fns: seq<FunctionInfo>, instance: Instance, results: Domain, args: seq<Operand>)
    requires Ordered(fns) && Contains(fns, SummaryOf(tcx, instance, results))
    requires WithBody(instance, args) in results.calls
    ensures var k := FindInstance(fns, instance);
            k.Some? && fns[k.value].calls != results.calls && WithBody(instance, args) !in fns[k.value].calls
  {
    var m :| 0 <= m < |fns| && SameInfo(fns[m], SummaryOf(tcx, instance, results));
    var call := WithBody(instance, args);
    SameLookup(fns, instance, args);
    assert call in fns[m].Calls();
    var k := FindInstance(fns, instance).value;
    assert call !in fns[k].Calls();
  }

  lemma SameLookup(fns: seq<FunctionInfo>, instance: Instance, args: seq<Operand>)
    ensures Find(fns, WithBody(instance, args)) == FindInstance(fns, instance)
  {
    var a, b := Find(fns, WithBody(instance, args)), FindInstance(fns, instance);
    assert forall info :: Answers(info, WithBody(instance, args)) == Answers(info, WithBody(instance, []));
    if a.Some? && b.Some? {
      assert !(a.value < b.value) && !(b.value < a.value);
    }
  }

  // ---------------------------------------------------------------------------------------
  // A function that is judged by its inner run

  const RESULT := Place(0, [])
  const ARGUMENT := Place(1, [])
  const ARGUMENT_TARGET := Place(1, [Deref])
  const NUMBER := Place(2, [])
  const REFERENCE := Place(3, [])
  const REFERENCE_TARGET := Place(3, [Deref])
  const OBJECT := Place(4, [])
  const OBJECT_TARGET := Place(4, [Deref])

  const F_TY := Ty(FnDef(0), [])
  const F := Instance(Item, 0, [])
  const F_CALL := WithBody(F, [Move(OBJECT)])

  const SET_NUMBER := Assign(NUMBER, Cast(Conversion, Constant(U8), I32))
  const SET_REFERENCE := Assign(REFERENCE, RefOf(false, NUMBER))
  const SET_OBJECT := Assign(OBJECT, Cast(Coercion, Copy(REFERENCE), DYN_REF))

  /** `fn f(x: &dyn T) -> i32 { let n = 1u8 as i32; let r = &n; let mut o = r as &dyn T; let y = f(o); o = r; y }` */
  const F_BODY :=
    Body([Block([SET_NUMBER, SET_REFERENCE, SET_OBJECT], Call(F_TY, [Move(OBJECT)], RESULT), {1}),
          Block([SET_OBJECT], OtherTerminator, {})], 1,
         {RESULT, ARGUMENT, ARGUMENT_TARGET, NUMBER, REFERENCE, REFERENCE_TARGET, OBJECT, OBJECT_TARGET}, {0, 1}, [], 0, false, false)

  function DeclaredInF(p: Place): Ty {
    if p == ARGUMENT || p == OBJECT then DYN_REF
    else if p == ARGUMENT_TARGET || p == OBJECT_TARGET then DYN
    else if p == REFERENCE then I32_REF
    else I32
  }

  function FTcx(): Tcx {
    Tcx(_ => F_BODY, (_, p) => DeclaredInF(p), (_, p) => {p}, (_, _, _, _) => None, _ => [], _ => false, (t, _) => t, t => t, t => t,
        (did, substs) => if did == 0 && substs == [] then Some(F) else None,
        did => did == 0, _ => false, _ => [], _ => [DYN_REF], _ => I32, _ => F_TY, _ => None, _ => false)
  }

  /** What is known at most: an `&i32` reaches the argument and the object. */
  const F_PLACES :=
    map[RESULT := Present(I32), ARGUMENT := Erased({I32_REF}), ARGUMENT_TARGET := Erased({I32}), NUMBER := Present(I32),
        REFERENCE := Present(I32_REF), REFERENCE_TARGET := Present(I32), OBJECT := Erased({I32_REF}), OBJECT_TARGET := Erased({I32})]

  const F_TOP := Domain(F_PLACES, {F_CALL}, {})

  function EnteredWith(known: set<Ty>): PartialFunction {
    RegularFunction(F, [Erased(known)])
  }

  const F_CEILING := Ceiling({EnteredWith({}), EnteredWith({I32_REF})}, map[F := F_TOP], map[])

  lemma Hides()
    ensures FromTy(I32) == Present(I32) && FromTy(I32_REF) == Present(I32_REF) && FromTy(DYN) == Erased({}) && FromTy(DYN_REF) == Erased({})
  {
    HidesOrNot();
    PairHides();
    assert I32_REF.args == [ERASED, I32];
    assert !Any(I32, IsErasingHead) && !Any(ERASED, IsErasingHead) && !Any(I32_REF, IsErasingHead);
  }

  lemma ReferenceProjects()
    ensures ProjectTy(FTcx(), I32_REF, None, [Deref]) == Some(I32)
  {
    ProjectOne(FTcx(), I32_REF, None, Deref);
  }

  /** A state in which propagating from `p` meets two targets that have everything already. */
  lemma PropagatesAsIs(tcx: Tcx, body: Body, places: map<Place, TrackedTy>, p: Place, target: Place)
    requires p in places && target in places && p != target && Targets(tcx, body, p, places[p]) == {p, target}
    requires ProjectTracked(tcx, places[p], p, p) == Some(places[p])
    requires ProjectTracked(tcx, places[p], p, target) == Some(places[target])
    ensures Propagates(tcx, body, places, p)
  {
    PropagatesToTwo(tcx, body, places, p, places[p], p, places[p], target, places[target]);
    JoinLaws(places[p], places[p]);
    JoinLaws(places[target], places[target]);
    assert places[p := places[p]][target := places[target]] == places;
  }

  /** A state in which propagating from `p` meets `p` alone. */
  lemma PropagatesToItself(tcx: Tcx, body: Body, places: map<Place, TrackedTy>, p: Place)
    requires p in places && Targets(tcx, body, p, places[p]) == {p} && ProjectTracked(tcx, places[p], p, p) == Some(places[p])
    ensures Propagates(tcx, body, places, p)
  {
    PropagatesTo(tcx, body, places, p, places[p], map[p := places[p]]);
    JoinLaws(places[p], places[p]);
    assert Contribute(places, map[p := places[p]]) == places;
  }

  lemma PlainTargets(p: Place)
    ensures Targets(FTcx(), F_BODY, p, Present(I32)) == {p}
    ensures ProjectTracked(FTcx(), Present(I32), p, p) == Some(Present(I32))
  {
    HidesOrNot();
    ProjectSelf(FTcx(), I32, p);
  }

  lemma PlainPropagates(p: Place)
    requires p == RESULT || p == NUMBER
    ensures Propagates(FTcx(), F_BODY, F_PLACES, p)
  {
    PlainTargets(p);
    PropagatesToItself(FTcx(), F_BODY, F_PLACES, p);
  }

  lemma ReferenceTargets(p: Place, t: TrackedTy)
    requires I32_REF in TypesOf(t)
    ensures Targets(FTcx(), F_BODY, p, t) == {p, DerefOf(p)} && p != DerefOf(p)
  {
    assert IsRef(I32_REF);
  }

  lemma ReferencePropagates()
    ensures Propagates(FTcx(), F_BODY, F_PLACES, REFERENCE)
  {
    Hides();
    ReferenceProjects();
    ProjectSelf(FTcx(), I32_REF, REFERENCE);
    assert Tail(REFERENCE, REFERENCE_TARGET) == [Deref];
    assert DerefOf(REFERENCE) == REFERENCE_TARGET;
    ReferenceTargets(REFERENCE, Present(I32_REF));
    PropagatesAsIs(FTcx(), F_BODY, F_PLACES, REFERENCE, REFERENCE_TARGET);
  }

  lemma ObjectPropagates()
    ensures Propagates(FTcx(), F_BODY, F_PLACES, OBJECT)
  {
    ReferenceProjects();
    ProjectSelf(FTcx(), I32_REF, OBJECT);
    assert Tail(OBJECT, OBJECT_TARGET) == [Deref];
    ProjectSingle(FTcx(), I32_REF, OBJECT, OBJECT, I32_REF);
    ProjectSingle(FTcx(), I32_REF, OBJECT, OBJECT_TARGET, I32);
    assert DerefOf(OBJECT) == OBJECT_TARGET;
    ReferenceTargets(OBJECT, Erased({I32_REF}));
    PropagatesAsIs(FTcx(), F_BODY, F_PLACES, OBJECT, OBJECT_TARGET);
  }

  /** Writing what is known already, to a place that propagated it, changes nothing. */
  lemma WriteChangesNothing(tcx: Tcx, body: Body, d: Domain, p: Place, t: TrackedTy)
    requires Propagates(tcx, body, d.places, p) && Join(d.places[p], t) == d.places[p]
    ensures Update(tcx, body, d, p, t) == Some(d)
  {
    assert d.places[p := d.places[p]] == d.places;
  }

  lemma SettingNumberChangesNothing()
    ensures StatementEffect(FTcx(), F_BODY, [], F_TOP, SET_NUMBER) == Some(F_TOP)
  {
    assert RvalueTracked(FTcx(), F_BODY, [], F_TOP, Cast(Conversion, Constant(U8), I32)) == Some(Present(U8));
    PlainPropagates(NUMBER);
    WriteChangesNothing(FTcx(), F_BODY, F_TOP, NUMBER, Present(U8));
  }

  lemma NumberIsReferredTo()
    ensures RvalueTracked(FTcx(), F_BODY, [], F_TOP, RefOf(false, NUMBER)) == Some(Present(I32_REF))
  {
    Hides();
    assert F_TOP.places[NUMBER] == Present(I32) && Map(Present(I32), ty => RefTo(false, ty)) == FromTy(I32_REF);
  }

  lemma SettingReferenceChangesNothing()
    ensures StatementEffect(FTcx(), F_BODY, [], F_TOP, SET_REFERENCE) == Some(F_TOP)
  {
    NumberIsReferredTo();
    ReferencePropagates();
    WriteChangesNothing(FTcx(), F_BODY, F_TOP, REFERENCE, Present(I32_REF));
  }

  lemma SettingObjectChangesNothing()
    ensures StatementEffect(FTcx(), F_BODY, [], F_TOP, SET_OBJECT) == Some(F_TOP)
  {
    ObjectPropagates();
    assert RvalueTracked(FTcx(), F_BODY, [], F_TOP, Cast(Coercion, Copy(REFERENCE), DYN_REF)) == Some(Present(I32_REF));
    JoinLaws(Erased({I32_REF}), Present(I32_REF));
    WriteChangesNothing(FTcx(), F_BODY, F_TOP, OBJECT, Present(I32_REF));
  }

  /** No statement adds anything to the ceiling. */
  lemma StatementsChangeNothing(stmt: Statement)
    requires stmt in F_BODY.blocks[0].statements
    ensures StatementEffect(FTcx(), F_BODY, [], F_TOP, stmt) == Some(F_TOP)
    ensures ClosureCreated(FTcx(), F_BODY, F_TOP, stmt).None?
  {
    SettingNumberChangesNothing();
    SettingReferenceChangesNothing();
    SettingObjectChangesNothing();
  }

  // --- start states

  const F_DECLARED :=
    map[RESULT := Present(I32), ARGUMENT := Erased({}), ARGUMENT_TARGET := Erased({}), NUMBER := Present(I32),
        REFERENCE := Present(I32_REF), REFERENCE_TARGET := Present(I32), OBJECT := Erased({}), OBJECT_TARGET := Erased({})]

  lemma DeclaredPlacesOfF()
    ensures DeclaredPlaces(FTcx(), F_BODY) == F_DECLARED
  {
    Hides();
  }

  lemma AugmentBy(tcx: Tcx, body: Body, d: Domain, p: Place, t: TrackedTy, places: map<Place, TrackedTy>)
    requires p in d.places && Domains.Propagate(tcx, body, d.places[p := Join(d.places[p], t)], p, t) == Propagated(places)
    ensures Augment(tcx, body, d, p, t) == Some(d.(places := places))
  {
  }

  lemma NothingArrives()
    ensures Domains.Propagate(FTcx(), F_BODY, F_DECLARED, ARGUMENT, Erased({})) == Propagated(F_DECLARED)
  {
    assert ProjectTracked(FTcx(), Erased({}), ARGUMENT, ARGUMENT).value.deps == {};
    assert Targets(FTcx(), F_BODY, ARGUMENT, Erased({})) == {ARGUMENT};
    PropagatesToItself(FTcx(), F_BODY, F_DECLARED, ARGUMENT);
  }

  const F_ENTERED := F_DECLARED[ARGUMENT := Erased({I32_REF})][ARGUMENT_TARGET := Erased({I32})]

  lemma ReferenceArrives()
    ensures Domains.Propagate(FTcx(), F_BODY, F_DECLARED[ARGUMENT := Erased({I32_REF})], ARGUMENT, Erased({I32_REF})) == Propagated(F_ENTERED)
  {
    var t, places := Erased({I32_REF}), F_DECLARED[ARGUMENT := Erased({I32_REF})];
    ReferenceProjects();
    ProjectSelf(FTcx(), I32_REF, ARGUMENT);
    assert Tail(ARGUMENT, ARGUMENT_TARGET) == [Deref] && DerefOf(ARGUMENT) == ARGUMENT_TARGET;
    ProjectSingle(FTcx(), I32_REF, ARGUMENT, ARGUMENT, I32_REF);
    ProjectSingle(FTcx(), I32_REF, ARGUMENT, ARGUMENT_TARGET, I32);
    ReferenceTargets(ARGUMENT, t);
    EnteredPlaces(t);
    PropagatesToTwo(FTcx(), F_BODY, places, ARGUMENT, t, ARGUMENT, t, ARGUMENT_TARGET, Erased({I32}));
  }

  lemma EnteredPlaces(t: TrackedTy)
    requires t == Erased({I32_REF})
    ensures var places := F_DECLARED[ARGUMENT := t];
            && ARGUMENT in places && ARGUMENT_TARGET in places
            && places[ARGUMENT := Join(places[ARGUMENT], t)][ARGUMENT_TARGET := Join(places[ARGUMENT_TARGET], Erased({I32}))] == F_ENTERED
  {
    JoinLaws(t, t);
    assert Join(Erased({}), Erased({I32})) == Erased({I32});
  }

  /** The start state, when propagating what is known of the argument makes the places these. */
  lemma StartsBy(known: set<Ty>, places: map<Place, TrackedTy>)
    requires Domains.Propagate(FTcx(), F_BODY, F_DECLARED[ARGUMENT := Erased(known)], ARGUMENT, Erased(known)) == Propagated(places)
    ensures Bottom(FTcx(), EnteredWith(known)) == Some(Domain(places, {}, {}))
  {
    var t, declared := Erased(known), Domain(F_DECLARED, {}, {});
    assert Join(F_DECLARED[ARGUMENT], t) == t;
    AugmentBy(FTcx(), F_BODY, declared, ARGUMENT, t, places);
    DeclaredPlacesOfF();
    assert AugmentArgs(FTcx(), F_BODY, Domain(places, {}, {}), [t], 1) == Some(Domain(places, {}, {}));
  }

  lemma StartsWithNothing()
    ensures Bottom(FTcx(), EnteredWith({})) == Some(Domain(F_DECLARED, {}, {}))
  {
    NothingArrives();
    assert F_DECLARED[ARGUMENT := Erased({})] == F_DECLARED;
    StartsBy({}, F_DECLARED);
  }

  lemma StartsWithReference()
    ensures Bottom(FTcx(), EnteredWith({I32_REF})) == Some(Domain(F_ENTERED, {}, {}))
  {
    ReferenceArrives();
    StartsBy({I32_REF}, F_ENTERED);
  }

  lemma StartsBelowTop(known: set<Ty>)
    requires known == {} || known == {I32_REF}
    ensures Bottom(FTcx(), EnteredWith(known)).Some?
    ensures Leq(Bottom(FTcx(), EnteredWith(known)).value, F_TOP)
  {
    if known == {} {
      StartsWithNothing();
      DeclaredIsBelowTop();
    } else {
      StartsWithReference();
      EnteredIsBelowTop();
    }
  }

  lemma DeclaredIsBelowTop()
    ensures Leq(Domain(F_DECLARED, {}, {}), F_TOP)
  {
  }

  lemma EnteredIsBelowTop()
    ensures Leq(Domain(F_ENTERED, {}, {}), F_TOP)
  {
  }

  // --- the call

  lemma FAssembles(caller: PartialFunction, known: set<Ty>, closures: Closures)
    requires caller.instance == F
    ensures Assemble(FTcx(), F, [Erased(known)], closures) == Fine(EnteredWith(known))
    ensures Instantiate(FTcx(), caller, EnteredWith(known)) == Some(EnteredWith(known))
  {
    Hides();
    assert DeclaredArgs(FTcx(), F).value == [Erased({})];
    assert Merge([Erased(known)], [Erased({})]) == [Erased(known)];
    assert F.(args := SubstAll([], [])) == F;
  }

  /** The call runs `f` with what is known of the object. */
  lemma FCallsItself(caller: PartialFunction, d: Domain, closures: Closures)
    requires caller.instance == F && Leq(d, F_TOP)
    ensures var site := CallSite(FTcx(), caller, F_BODY, d, F_BODY.blocks[0].terminator);
            && site == Some(Site(F_TY, [Move(OBJECT)], [d.places[OBJECT]])) && d.places[OBJECT].Erased?
            && ResolveSite(FTcx(), caller, site.value, closures) == Fine({EnteredWith(d.places[OBJECT].deps)})
  {
    var tcx, args := FTcx(), [d.places[OBJECT]];
    assert Subst(F_TY, F.args) == F_TY;
    assert ArgumentTypes(tcx, F_BODY, d, [Move(OBJECT)]) == args;
    assert CandidateInstances(tcx, 0, [], args) == Some({F});
    FAssembles(caller, d.places[OBJECT].deps, closures);
    OnlyOneResolved(tcx, caller, [], args, closures, F, EnteredWith(d.places[OBJECT].deps));
  }

  /** What is known of the object is nothing, or that it is an `&i32`. */
  lemma ObjectIsOneOfTwo(d: Domain)
    requires Leq(d, F_TOP)
    ensures OBJECT in d.places && d.places[OBJECT].Erased? && EnteredWith(d.places[OBJECT].deps) in F_CEILING.functions
  {
    assert d.places[OBJECT].deps <= {I32_REF};
    assert d.places[OBJECT].deps == {} || d.places[OBJECT].deps == {I32_REF};
  }

  lemma FReturnIsHeld(g: PartialFunction)
    requires g.instance == F
    ensures ReturnedBy(FTcx(), g, F_TOP) == Some(Present(I32))
    ensures Holds(FTcx(), F_BODY, F_TOP, Some(RESULT), Called(F_CALL, Some(Present(I32))))
  {
    HidesOrNot();
    PlainPropagates(RESULT);
    assert F_PLACES[RESULT] == Present(I32);
  }

  lemma FCallIsCovered(f: PartialFunction, d: Domain, closures: Closures)
    requires f.instance == F && Leq(d, F_TOP)
    ensures CallSite(FTcx(), f, F_BODY, d, F_BODY.blocks[0].terminator).Some?
    ensures SiteCovered(FTcx(), F_CEILING, f, CallSite(FTcx(), f, F_BODY, d, F_BODY.blocks[0].terminator).value, Some(RESULT), closures)
  {
    ObjectIsOneOfTwo(d);
    FCallsItself(f, d, closures);
    var g := EnteredWith(d.places[OBJECT].deps);
    FReturnIsHeld(g);
    assert F_CEILING.states[F] == F_TOP;
    assert CalleeCovered(FTcx(), F_CEILING, f, Site(F_TY, [Move(OBJECT)], [d.places[OBJECT]]), Some(RESULT), g);
  }

  lemma FTerminatorIsCovered(f: PartialFunction)
    requires f.instance == F
    ensures F in F_CEILING.states && TerminatorCovered(FTcx(), F_CEILING, f, F_BODY.blocks[0].terminator)
  {
    forall d, c | Leq(d, F_TOP) && ClosuresWithin(c, F_CEILING.closures)
      ensures CallSite(FTcx(), f, F_BODY, d, F_BODY.blocks[0].terminator).Some?
      ensures SiteCovered(FTcx(), F_CEILING, f, CallSite(FTcx(), f, F_BODY, d, F_BODY.blocks[0].terminator).value, Some(RESULT), c)
    {
      FCallIsCovered(f, d, c);
    }
  }

  lemma FStatementIsCovered(f: PartialFunction, stmt: Statement)
    requires f.instance == F && stmt in F_BODY.blocks[0].statements
    ensures F in F_CEILING.states && StatementCovered(FTcx(), F_CEILING, f, stmt)
  {
    assert F_CEILING.states[F] == F_TOP;
    StatementsChangeNothing(stmt);
    LeqReflexive(F_TOP);
  }

  /** The second block repeats a statement of the first. */
  lemma FStatements(stmt: Statement)
    requires StatementIn(F_BODY, stmt)
    ensures stmt in F_BODY.blocks[0].statements
  {
  }

  lemma FStatementsAreCovered(f: PartialFunction)
    requires f.instance == F
    ensures F in F_CEILING.states && forall stmt | StatementIn(F_BODY, stmt) :: StatementCovered(FTcx(), F_CEILING, f, stmt)
  {
    forall stmt | StatementIn(F_BODY, stmt)
      ensures StatementCovered(FTcx(), F_CEILING, f, stmt)
    {
      FStatements(stmt);
      FStatementIsCovered(f, stmt);
    }
  }

  lemma FIsCovered(f: PartialFunction)
    requires f in F_CEILING.functions
    ensures FunctionCovered(FTcx(), F_CEILING, f)
  {
    StartsBelowTop(f.trackedArgs[0].deps);
    FStatementsAreCovered(f);
    FTerminatorsAreCovered(f);
    FIsWellFormed();
  }

  lemma FIsWellFormed()
    ensures WellFormedBody(F_BODY) && F_BODY.types == [] && |F_BODY.blocks| == 2
  {
  }

  lemma FTerminatorsAreCovered(f: PartialFunction)
    requires f.instance == F
    ensures F in F_CEILING.states
    ensures forall b | 0 <= b < |F_BODY.blocks| :: TerminatorCovered(FTcx(), F_CEILING, f, F_BODY.blocks[b].terminator)
  {
    forall b | 0 <= b < |F_BODY.blocks|
      ensures TerminatorCovered(FTcx(), F_CEILING, f, F_BODY.blocks[b].terminator)
    {
      if b == 0 {
        FTerminatorIsCovered(f);
      } else {
        FLastBlockIsCovered(f);
      }
    }
  }

  lemma FLastBlockIsCovered(f: PartialFunction)
    requires f.instance == F
    ensures F in F_CEILING.states && TerminatorCovered(FTcx(), F_CEILING, f, F_BODY.blocks[1].terminator)
  {
  }

  lemma FRvaluesAreTracked(d: Domain, stmt: Statement)
    requires StatementIn(F_BODY, stmt) && stmt.Assign?
    ensures RvalueTracked(FTcx(), F_BODY, [], d, stmt.rvalue).Some?
  {
    FStatements(stmt);
  }

  lemma FIsQuiet(f: PartialFunction)
    requires f in F_CEILING.functions
    ensures FunctionQuiet(FTcx(), F_CEILING, f)
  {
    StartsBelowTop(f.trackedArgs[0].deps);
    forall d, c, b | 0 <= b < |F_BODY.blocks| && Leq(d, F_TOP) && ClosuresWithin(c, F_CEILING.closures)
      ensures var site := CallSite(FTcx(), f, F_BODY, d, F_BODY.blocks[b].terminator);
              site.Some? && site.value.functionTy.head.FnDef? ==> !ResolveSite(FTcx(), f, site.value, c).Panics?
    {
      if b == 0 {
        FCallsItself(f, d, c);
      } else {
        assert F_BODY.blocks[b].terminator == OtherTerminator;
      }
    }
    forall d, stmt | Leq(d, F_TOP) && StatementIn(F_BODY, stmt) && stmt.Assign?
      ensures RvalueTracked(FTcx(), F_BODY, [], d, stmt.rvalue).Some?
    {
      FRvaluesAreTracked(d, stmt);
    }
  }

  lemma OriginOfF()
    ensures OriginFunction(FTcx(), F) == EnteredWith({})
  {
    Hides();
    assert OriginArgs(FTcx(), F) == [Erased({})];
  }

  /** The collection of `f` meets finitely many things, and none of its operations panics. */
  lemma FIsCollected()
    ensures ClosedUniverse(FTcx(), UniverseOf(F_CEILING)) && NeverPanics(FTcx(), UniverseOf(F_CEILING))
    ensures UniverseOf(F_CEILING).occurs(OriginFunction(FTcx(), F))
  {
    OriginOfF();
    forall f | f in F_CEILING.functions
      ensures FunctionCovered(FTcx(), F_CEILING, f) && FunctionQuiet(FTcx(), F_CEILING, f)
    {
      FIsCovered(f);
      FIsQuiet(f);
    }
    CeilingsGiveUniverse(FTcx(), F_CEILING);
    CeilingsNeverPanic(FTcx(), F_CEILING);
  }

  // --- the outer run

  lemma {:induction false} NothingFlowsBack(e: Setting, trace: seq<Step>, b: nat)
    requires b < |e.body.blocks| && forall k | 0 <= k < |e.body.blocks| :: b !in e.body.blocks[k].successors
    ensures Entries(e, trace)[b] == e.bottom
    decreases |trace|
  {
    if trace != [] {
      NothingFlowsBack(e, trace[..|trace| - 1], b);
      LastStep(e, trace, b);
    }
  }

  lemma {:induction false} StatementsStayBelowTop(d: Domain, k: nat)
    requires Leq(d, F_TOP) && k <= 3
    requires AfterStatements(FTcx(), F_BODY, [], d, F_BODY.blocks[0].statements[..k]).Some?
    ensures Leq(AfterStatements(FTcx(), F_BODY, [], d, F_BODY.blocks[0].statements[..k]).value, F_TOP)
    decreases k
  {
    var stmts := F_BODY.blocks[0].statements;
    if k > 0 {
      AfterOneMore(FTcx(), F_BODY, [], d, stmts, k - 1);
      StatementsStayBelowTop(d, k - 1);
      var before := AfterStatements(FTcx(), F_BODY, [], d, stmts[..k - 1]).value;
      StatementsChangeNothing(stmts[k - 1]);
      StatementMonotone(FTcx(), F_BODY, [], before, F_TOP, stmts[k - 1]);
    }
  }

  lemma ReferenceIsTracked(d: Domain)
    requires Leq(d, F_TOP)
    ensures REFERENCE in d.places && d.places[REFERENCE] == Present(I32_REF)
    ensures RvalueTracked(FTcx(), F_BODY, [], d, SET_OBJECT.rvalue) == Some(Present(I32_REF))
  {
    assert F_TOP.places[REFERENCE] == Present(I32_REF);
  }

  /** After the statements the object is known to be an `&i32`. */
  lemma ObjectIsReference(d: Domain)
    requires Leq(d, F_TOP) && AfterStatements(FTcx(), F_BODY, [], d, F_BODY.blocks[0].statements).Some?
    ensures var d' := AfterStatements(FTcx(), F_BODY, [], d, F_BODY.blocks[0].statements).value;
            Leq(d', F_TOP) && d'.places[OBJECT] == Erased({I32_REF})
  {
    var stmts := F_BODY.blocks[0].statements;
    assert stmts[..3] == stmts && stmts[2] == SET_OBJECT;
    StatementsStayBelowTop(d, 3);
    AfterOneMore(FTcx(), F_BODY, [], d, stmts, 2);
    StatementsStayBelowTop(d, 2);
    var before := AfterStatements(FTcx(), F_BODY, [], d, stmts[..2]).value;
    ObjectGetsReference(before, AfterStatements(FTcx(), F_BODY, [], d, stmts).value);
  }

  lemma ObjectGetsReference(d: Domain, d': Domain)
    requires Leq(d, F_TOP) && Leq(d', F_TOP) && StatementEffect(FTcx(), F_BODY, [], d, SET_OBJECT) == Some(d')
    ensures d'.places[OBJECT] == Erased({I32_REF})
  {
    ReferenceIsTracked(d);
    UpdateInflates(FTcx(), F_BODY, d, OBJECT, Present(I32_REF));
    assert d'.places[OBJECT].deps <= {I32_REF} && d.places[OBJECT].Erased?;
  }

  /** The outer run records the call of `f`. */
  lemma OuterRunCallsItself(l: Ledger, results: Domain, c: Certificate)
    requires l.origin == F && CertifiedBy(FTcx(), l, F, results, c) && c.chain == [OriginFunction(FTcx(), F)]
    ensures F_CALL in results.calls
  {
    OriginOfF();
    OuterEndCallsItself(l, results, c);
    EndsBelowSummary(FTcx(), l, F, results, c, 0);
  }

  lemma OuterEndCallsItself(l: Ledger, results: Domain, c: Certificate)
    requires CertifiedBy(FTcx(), l, F, results, c) && c.chain == [EnteredWith({})]
    ensures |c.ends.steps| == 2 && F_CALL in CallsOf(c.ends.steps[0].effects)
  {
    FirstEnd(l, results, c);
    FirstEndIsBelowTop(l, results, c);
    EndCallsItself(l, EnteredWith({}), c.ends.steps[0], c.ends.snapshots[0], c);
  }

  lemma FirstEndIsBelowTop(l: Ledger, results: Domain, c: Certificate)
    requires CertifiedBy(FTcx(), l, F, results, c) && c.chain == [EnteredWith({})]
    ensures |c.ends.steps| == 2 && Leq(c.ends.steps[0].input, F_TOP)
  {
    FirstEnd(l, results, c);
    StartsBelowTop({});
    FirstBlockStartsAtBottom(EnteredWith({}), c.run.steps);
  }

  lemma FirstBlockStartsAtBottom(f: PartialFunction, trace: seq<Step>)
    requires f.instance == F && Bottom(FTcx(), f).Some?
    ensures Entries(SettingOf(FTcx(), f), trace)[0] == Bottom(FTcx(), f).value
  {
    NothingFlowsBack(Setting(FTcx(), F_BODY, F.args, Bottom(FTcx(), f).value), trace, 0);
  }

  /** The recorded end of the first block starts from the state its entry has. */
  lemma FirstEnd(l: Ledger, results: Domain, c: Certificate)
    requires CertifiedBy(FTcx(), l, F, results, c)
    ensures |c.ends.steps| == |c.ends.snapshots| == 2
    ensures var s := c.ends.steps[0];
            && s.block == 0 && s.input == Entries(SettingOf(FTcx(), c.Function()), c.run.steps)[0]
            && AfterStatements(FTcx(), F_BODY, [], s.input, F_BODY.blocks[0].statements).Some?
            && StepRecorded(FTcx(), l, c.Function(), StackOf(c.chain), s, c.ends.snapshots[0])
  {
    assert StepRecorded(FTcx(), l, c.Function(), StackOf(c.chain), c.ends.steps[0], c.ends.snapshots[0]);
    assert ValidStep(SettingOf(FTcx(), c.Function()), c.ends.steps[0]);
  }

  lemma EndCallsItself(l: Ledger, f: PartialFunction, s: Step, closures: Closures, c: Certificate)
    requires f == EnteredWith({}) && c.chain == [f] && s.block == 0 && Leq(s.input, F_TOP)
    requires StepRecorded(FTcx(), l, f, StackOf(c.chain), s, closures)
    requires AfterStatements(FTcx(), F_BODY, [], s.input, F_BODY.blocks[0].statements).Some?
    ensures F_CALL in CallsOf(s.effects)
  {
    ObjectIsReference(s.input);
    var d := AfterStatements(FTcx(), F_BODY, [], s.input, F_BODY.blocks[0].statements).value;
    FCallsItself(f, d, closures);
    var g, site := EnteredWith({I32_REF}), Site(F_TY, [Move(OBJECT)], [Erased({I32_REF})]);
    assert SiteAt(FTcx(), f, s.input, 0) == Some(site);
    assert I32_REF in {I32_REF} && ItemOf(g) != ItemOf(f);
    assert StackOf(c.chain) == [ItemOf(f)];
    assert g in FreshCallees({g}, StackOf(c.chain));
    assert WasCalled(FTcx(), g, site, s.effects);
    var e :| e in s.effects && IsEffectOf(FTcx(), g, site, e);
    assert e.call == F_CALL;
  }

  /** The collection of `f` succeeds, and its lookup gives the inner run's summary, which lacks the call
      that the outer run recorded. */
  method InnerRunIsJudged() returns (fns: seq<FunctionInfo>)
    ensures Lookup(fns, F).Some? && Lookup(fns, F).value.InfoWithBody? && F_CALL !in Lookup(fns, F).value.calls
    ensures exists k :: 0 <= k < |fns| && IsSummaryOf(fns[k], F) && F_CALL in fns[k].calls
  {
    FIsCollected();
    var ok, functions, closures;
    ghost var history, results, c, before, x;
    ok, functions, closures, history, results, c, before, x := Collect(FTcx(), F, UniverseOf(F_CEILING));
    fns := functions.fns;
    OuterRunCallsItself(Ledger(F, fns, history), results, c);
    RecursionIsJudgedInside(FTcx(), fns, F, results, [Move(OBJECT)]);
    OuterSummaryIsStored(fns, results);
  }

  lemma OuterSummaryIsStored(fns: seq<FunctionInfo>, results: Domain)
    requires Contains(fns, SummaryOf(FTcx(), F, results)) && F_CALL in results.calls
    ensures exists k :: 0 <= k < |fns| && IsSummaryOf(fns[k], F) && F_CALL in fns[k].calls
  {
    var k :| 0 <= k < |fns| && SameInfo(fns[k], SummaryOf(FTcx(), F, results));
    assert IsSummaryOf(fns[k], F) && F_CALL in fns[k].calls;
  }

  // ---------------------------------------------------------------------------------------
  // An instance that is never analyzed

  const G_I32 := Instance(Item, 0, [I32])
  const G_BOOL := Instance(Item, 0, [BOOL])
  const G_BOOL_TY := Ty(FnDef(0), [BOOL])
  const G_CALL := WithBody(G_BOOL, [])

  /** `fn g<T>() -> i32 { g::<bool>() }` */
  const G_BODY := Body([Block([], Call(G_BOOL_TY, [], RESULT), {})], 0, {RESULT}, {0}, [], 0, false, false)

  function GTcx(): Tcx {
    Tcx(_ => G_BODY, (_, _) => I32, (_, p) => {p}, (_, _, _, _) => None, _ => [], _ => false, (t, _) => t, t => t, t => t,
        (did, substs) => if did == 0 then Some(Instance(Item, 0, substs)) else None,
        did => did == 0, _ => false, _ => [], _ => [], _ => I32, _ => Ty(FnDef(0), []), _ => None, _ => false)
  }

  function G(instance: Instance): PartialFunction {
    RegularFunction(instance, [])
  }

  const G_TOP := Domain(map[RESULT := Present(I32)], {G_CALL}, {})
  const G_CEILING := Ceiling({G(G_I32), G(G_BOOL)}, map[G_I32 := G_TOP, G_BOOL := G_TOP], map[])

  /** Whatever the state and the closure storage, the call runs `g::<bool>`. */
  lemma GCallsBool(caller: PartialFunction, d: Domain, closures: Closures)
    ensures var site := Site(G_BOOL_TY, [], []);
            && CallSite(GTcx(), caller, G_BODY, d, G_BODY.blocks[0].terminator) == Some(site)
            && SiteAt(GTcx(), caller, d, 0) == Some(site)
            && ResolveSite(GTcx(), caller, site, closures) == Fine({G(G_BOOL)})
  {
    var tcx := GTcx();
    SubstClosed(BOOL, caller.instance.args);
    assert SubstAll([BOOL], caller.instance.args) == [BOOL];
    assert Subst(G_BOOL_TY, caller.instance.args) == G_BOOL_TY;
    assert ArgumentTypes(tcx, G_BODY, d, []) == [];
    assert DeclaredArgs(tcx, G_BOOL).value == [] && Merge([], []) == [];
    assert Assemble(tcx, G_BOOL, [], closures) == Fine(G(G_BOOL));
    assert Instantiate(tcx, caller, G(G_BOOL)) == Some(G(G_BOOL));
    assert CandidateInstances(tcx, 0, [BOOL], []) == Some({G_BOOL});
    OnlyOneResolved(tcx, caller, [BOOL], [], closures, G_BOOL, G(G_BOOL));
  }

  lemma GResultPropagates()
    ensures Propagates(GTcx(), G_BODY, G_TOP.places, RESULT)
  {
    ProjectSelf(GTcx(), I32, RESULT);
    HidesOrNot();
    assert Targets(GTcx(), G_BODY, RESULT, Present(I32)) == {RESULT};
    PropagatesTo(GTcx(), G_BODY, G_TOP.places, RESULT, Present(I32), map[RESULT := Present(I32)]);
    assert Contribute(G_TOP.places, map[RESULT := Present(I32)]) == G_TOP.places;
  }

  lemma GStarts(f: PartialFunction)
    requires f in G_CEILING.functions
    ensures Bottom(GTcx(), f) == Some(Domain(G_TOP.places, {}, {}))
  {
    HidesOrNot();
    assert DeclaredPlaces(GTcx(), G_BODY) == G_TOP.places;
  }

  lemma GCalleeIsCovered(f: PartialFunction)
    requires f in G_CEILING.functions
    ensures f.instance in G_CEILING.states && CalleeCovered(GTcx(), G_CEILING, f, Site(G_BOOL_TY, [], []), Some(RESULT), G(G_BOOL))
  {
    HidesOrNot();
    GResultPropagates();
  }

  lemma GIsCovered(f: PartialFunction)
    requires f in G_CEILING.functions
    ensures FunctionCovered(GTcx(), G_CEILING, f) && FunctionQuiet(GTcx(), G_CEILING, f)
  {
    var tcx, x := GTcx(), G_CEILING;
    GStarts(f);
    forall d, c | ClosuresWithin(c, x.closures)
      ensures CallSite(tcx, f, G_BODY, d, G_BODY.blocks[0].terminator).Some?
      ensures SiteCovered(tcx, x, f, CallSite(tcx, f, G_BODY, d, G_BODY.blocks[0].terminator).value, Some(RESULT), c)
      ensures !ResolveSite(tcx, f, CallSite(tcx, f, G_BODY, d, G_BODY.blocks[0].terminator).value, c).Panics?
    {
      GCallsBool(f, d, c);
      GCalleeIsCovered(f);
    }
    assert forall stmt :: !StatementIn(G_BODY, stmt);
    assert TerminatorCovered(tcx, x, f, G_BODY.blocks[0].terminator);
  }

  lemma GIsCollected()
    ensures ClosedUniverse(GTcx(), UniverseOf(G_CEILING)) && NeverPanics(GTcx(), UniverseOf(G_CEILING))
    ensures OriginFunction(GTcx(), G_I32) == G(G_I32) && UniverseOf(G_CEILING).occurs(OriginFunction(GTcx(), G_I32))
  {
    assert OriginArgs(GTcx(), G_I32) == [];
    GIsCovered(G(G_I32));
    GIsCovered(G(G_BOOL));
    CeilingsGiveUniverse(GTcx(), G_CEILING);
    CeilingsNeverPanic(GTcx(), G_CEILING);
  }

  /** The second analysis of a chain is of a callee at some state and block of the first. */
  lemma FirstLink(tcx: Tcx, l: Ledger, chain: seq<PartialFunction>) returns (d: Domain, b: nat, closures: Closures, site: Site)
    requires IsChain(tcx, l, chain) && |chain| > 1
    ensures b < |tcx.bodyOf(chain[0].instance).blocks| && SiteAt(tcx, chain[0], d, b) == Some(site)
    ensures IsCallee(tcx, chain[0], site, closures, chain[1])
  {
    assert LinkOk(tcx, l, chain, 0);
    assert chain[..1] == [chain[0]];
    var w, s :| ReachesSite(tcx, l, [chain[0]], w, s) && IsCallee(tcx, chain[0], s, w.closures, chain[1]);
    d, b, closures, site := Entries(SettingOf(tcx, chain[0]), w.run.steps)[w.block], w.block, w.closures, s;
  }

  /** Below the outermost analysis there could only be that of `g::<bool>`, which has the same item. */
  lemma ChainsEndAtOrigin(l: Ledger, chain: seq<PartialFunction>)
    requires l.origin == G_I32 && IsChain(GTcx(), l, chain) && chain != []
    ensures Last(chain).instance == G_I32
  {
    if |chain| > 1 {
      assert StackOf(chain)[0] != StackOf(chain)[1];
      var d, b, closures, site := FirstLink(GTcx(), l, chain);
      GCallsBool(chain[0], d, closures);
    }
  }

  /** The recursion guard does not see the type arguments, so the call of the other instance is
      skipped, and no collection of this function has a summary of it. */
  lemma OtherInstanceIsNeverAnalyzed(u: Universe, l: Ledger)
    requires l.origin == G_I32 && StorageOk(GTcx(), u, l, [])
    ensures !HasSummary(l.fns, G_BOOL)
  {
    var k := FindInstance(l.fns, G_BOOL);
    if k.Some? {
      var c := CertificateOf(GTcx(), u, l, [], k.value);
      ChainsEndAtOrigin(l, c.chain);
    }
  }

  /** The collection of `g::<i32>` succeeds with a summary of `g::<i32>` and none of `g::<bool>`, though that is what it calls. */
  method OtherInstanceIsSkipped() returns (fns: seq<FunctionInfo>)
    ensures FindInstance(fns, G_I32).Some? && FindInstance(fns, G_BOOL).None?
  {
    GIsCollected();
    var ok, functions, closures;
    ghost var history, results, c, before, x;
    ok, functions, closures, history, results, c, before, x := Collect(GTcx(), G_I32, UniverseOf(G_CEILING));
    OtherInstanceIsNeverAnalyzed(UniverseOf(G_CEILING), Ledger(G_I32, functions.fns, history));
    fns := functions.fns;
  }
}
