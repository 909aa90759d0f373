/** A body whose analysis cannot end: the reference that is taken in a loop wraps the type at every round. */
module EndlessPrograms {
  import opened Options
  import opened Types
  import opened TrackedTypes
  import opened Mir
  import opened Domains
  import opened CollectorDomains
  import opened Transfers
  import opened Dataflow
  import opened Resolution
  import opened Evidence
  import opened Summaries
  import opened UntouchedPlaces
  import opened Counterexamples

  const OBJECT := Place(1, [])
  const REFERENCE := Place(2, [])
  const WRAPPED := Place(3, [])

  const VIEW := Assign(OBJECT, Cast(Coercion, Copy(REFERENCE), DYN_REF))
  const WRAP := Assign(WRAPPED, RefOf(false, OBJECT))
  const VIEW_AGAIN := Assign(OBJECT, Cast(Coercion, Copy(WRAPPED), DYN_REF))

  /** `let r = &1; loop { let mut o = r as &dyn T; let w = &o; o = w as &dyn T; }`: the object is an `&i32` or an
      `&&i32`, whatever the round. */
  const LOOP_BODY :=
    Body([Block([VIEW, WRAP, VIEW_AGAIN], OtherTerminator, {0})], 0,
         {OBJECT, DerefOf(OBJECT), REFERENCE, DerefOf(REFERENCE), WRAPPED, DerefOf(WRAPPED)}, {0}, [], 0, false, false)

  function DeclaredInLoop(p: Place): Ty {
    if p == OBJECT || p == DerefOf(WRAPPED) then DYN_REF
    else if p == WRAPPED then RefTo(false, DYN_REF)
    else if p == REFERENCE then I32_REF
    else if p == DerefOf(OBJECT) then DYN
    else I32
  }

  function LoopTcx(): Tcx {
    Tcx(_ => LOOP_BODY, (_, p) => DeclaredInLoop(p), (_, p) => {p}, (_, _, _, _) => None, _ => [], _ => false, (t, _) => t, t => t, t => t,
        (_, _) => None, _ => true, _ => false, _ => [], _ => [], _ => I32, _ => Ty(FnDef(0), []), _ => None, _ => false)
  }

  const LOOP := RegularFunction(Instance(Item, 0, []), [])

  predicate IsReference(ty: Ty) {
    ty.head.Ref? && |ty.args| == 2
  }

  /** A place that tracks a set of references, and what it points to. */
  predicate TracksReferences(d: Domain, p: Place) {
    && p in d.places && d.places[p].Erased? && DerefOf(p) in d.places
    && forall x | x in d.places[p].deps :: IsReference(x)
  }

  /** What holds in every round. */
  predicate InLoop(d: Domain) {
    && TracksReferences(d, OBJECT) && TracksReferences(d, WRAPPED)
    && REFERENCE in d.places && d.places[REFERENCE] == Present(I32_REF)
  }

  lemma LoopHides()
    ensures FromTy(DYN_REF) == Erased({}) && FromTy(RefTo(false, DYN_REF)) == Erased({}) && FromTy(I32_REF) == Present(I32_REF)
  {
    PairHides();
    assert I32_REF.args == [ERASED, I32] && RefTo(false, DYN_REF).args == [ERASED, DYN_REF];
    assert !ContainsClosure(ERASED) && !ContainsClosure(DYN_REF) && !ContainsClosure(RefTo(false, DYN_REF));
    assert Any(RefTo(false, DYN_REF).args[1], IsErasingHead);
    assert !Any(I32, IsErasingHead) && !Any(ERASED, IsErasingHead) && !Any(I32_REF, IsErasingHead);
  }

  lemma LoopStarts()
    ensures Bottom(LoopTcx(), LOOP).Some? && InLoop(Bottom(LoopTcx(), LOOP).value)
  {
    LoopHides();
  }

  lemma ReferencesProject(t: TrackedTy, p: Place)
    requires t.Erased? && forall x | x in t.deps :: IsReference(x)
    ensures Projectable(LoopTcx(), LOOP_BODY, p, t)
  {
    var tcx := LoopTcx();
    assert Tail(p, DerefOf(p)) == [Deref];
    forall x | x in t.deps
      ensures ProjectTy(tcx, x, VariantOf(p), Tail(p, p)).Some? && ProjectTy(tcx, x, VariantOf(p), Tail(p, DerefOf(p))).Some?
    {
      ProjectSelf(tcx, x, p);
      ProjectOne(tcx, x, VariantOf(p), Deref);
    }
  }

  lemma ReferencesTarget(t: TrackedTy, p: Place)
    ensures p in Targets(LoopTcx(), LOOP_BODY, p, t) && Targets(LoopTcx(), LOOP_BODY, p, t) <= {p, DerefOf(p)}
  {
  }

  lemma ReferencesAreTaken(d: Domain, p: Place, t: TrackedTy)
    requires TracksReferences(d, p) && forall x | x in TypesOf(t) :: IsReference(x)
    ensures Update(LoopTcx(), LOOP_BODY, d, p, t).Some?
    ensures var d' := Update(LoopTcx(), LOOP_BODY, d, p, t).value;
            TracksReferences(d', p) && d'.places[p].deps == d.places[p].deps + TypesOf(t)
  {
    var joined := Join(d.places[p], t);
    assert joined == Erased(d.places[p].deps + TypesOf(t));
    ReferencesProject(joined, p);
    ReferencesTarget(joined, p);
    UpdatePropagates(LoopTcx(), LOOP_BODY, d, p, t);
  }

  lemma OthersStay(d: Domain, p: Place, t: TrackedTy, other: Place)
    requires Update(LoopTcx(), LOOP_BODY, d, p, t).Some? && other in d.places && other != p && other != DerefOf(p)
    ensures SameAt(d, Update(LoopTcx(), LOOP_BODY, d, p, t).value, other)
  {
    UpdateLeaves(LoopTcx(), LOOP_BODY, d, p, t, other);
  }

  /** Neither statement of the loop panics, and an assigned place has what is assigned. */
  lemma Assigned(d: Domain, p: Place, rvalue: Rvalue, t: TrackedTy)
    requires InLoop(d) && (p == OBJECT || p == WRAPPED) && forall x | x in TypesOf(t) :: IsReference(x)
    requires RvalueTracked(LoopTcx(), LOOP_BODY, [], d, rvalue) == Some(t)
    ensures StatementEffect(LoopTcx(), LOOP_BODY, [], d, Assign(p, rvalue)).Some?
    ensures var d' := StatementEffect(LoopTcx(), LOOP_BODY, [], d, Assign(p, rvalue)).value;
            && InLoop(d') && d'.places[p].deps == d.places[p].deps + TypesOf(t)
            && (p == WRAPPED ==> d'.places[OBJECT] == d.places[OBJECT])
  {
    var other := if p == OBJECT then WRAPPED else OBJECT;
    ReferencesAreTaken(d, p, t);
    OthersStay(d, p, t, other);
    OthersStay(d, p, t, DerefOf(other));
    OthersStay(d, p, t, REFERENCE);
  }

  function Round(): seq<Statement> {
    [VIEW, WRAP, VIEW_AGAIN]
  }

  lemma Views(d: Domain)
    requires InLoop(d)
    ensures StatementEffect(LoopTcx(), LOOP_BODY, [], d, VIEW).Some?
    ensures var d' := StatementEffect(LoopTcx(), LOOP_BODY, [], d, VIEW).value;
            InLoop(d') && I32_REF in d'.places[OBJECT].deps && d.places[OBJECT].deps <= d'.places[OBJECT].deps
  {
    Assigned(d, OBJECT, VIEW.rvalue, Present(I32_REF));
  }

  lemma Wraps(d: Domain)
    requires InLoop(d)
    ensures StatementEffect(LoopTcx(), LOOP_BODY, [], d, WRAP).Some?
    ensures var d' := StatementEffect(LoopTcx(), LOOP_BODY, [], d, WRAP).value;
            InLoop(d') && d'.places[OBJECT] == d.places[OBJECT]
            && forall x | x in d.places[OBJECT].deps :: RefTo(false, x) in d'.places[WRAPPED].deps
  {
    var t := Map(d.places[OBJECT], ty => RefTo(false, ty));
    assert forall x | x in d.places[OBJECT].deps :: RefTo(false, x) in t.deps;
    Assigned(d, WRAPPED, WRAP.rvalue, t);
  }

  lemma ViewsAgain(d: Domain)
    requires InLoop(d)
    ensures StatementEffect(LoopTcx(), LOOP_BODY, [], d, VIEW_AGAIN).Some?
    ensures var d' := StatementEffect(LoopTcx(), LOOP_BODY, [], d, VIEW_AGAIN).value;
            InLoop(d') && d'.places[OBJECT].deps == d.places[OBJECT].deps + d.places[WRAPPED].deps
  {
    Assigned(d, OBJECT, VIEW_AGAIN.rvalue, d.places[WRAPPED]);
  }

  /** One round: the object may be the reference, or a reference to anything it may have been. */
  lemma RoundWraps(d: Domain)
    requires InLoop(d)
    ensures AfterStatements(LoopTcx(), LOOP_BODY, [], d, Round()).Some?
    ensures var d' := AfterStatements(LoopTcx(), LOOP_BODY, [], d, Round()).value;
            InLoop(d') && I32_REF in d'.places[OBJECT].deps
            && forall x | x in d.places[OBJECT].deps :: RefTo(false, x) in d'.places[OBJECT].deps
  {
    Views(d);
    var viewed := StatementEffect(LoopTcx(), LOOP_BODY, [], d, VIEW).value;
    Wraps(viewed);
    var wrapped := StatementEffect(LoopTcx(), LOOP_BODY, [], viewed, WRAP).value;
    ViewsAgain(wrapped);
    var again := StatementEffect(LoopTcx(), LOOP_BODY, [], wrapped, VIEW_AGAIN).value;
    InOrder(LoopTcx(), LOOP_BODY, d, VIEW, viewed, WRAP, wrapped, VIEW_AGAIN, again);
  }

  lemma InOrder(tcx: Tcx, body: Body, d: Domain, a: Statement, d1: Domain, b: Statement, d2: Domain, c: Statement, d3: Domain)
    requires StatementEffect(tcx, body, [], d, a) == Some(d1) && StatementEffect(tcx, body, [], d1, b) == Some(d2)
    requires StatementEffect(tcx, body, [], d2, c) == Some(d3)
    ensures AfterStatements(tcx, body, [], d, [a, b, c]) == Some(d3)
  {
    assert [a, b, c][1..] == [b, c] && [b, c][1..] == [c] && [c][1..] == [];
    assert AfterStatements(tcx, body, [], d2, [c]) == AfterStatements(tcx, body, [], d3, []);
    assert AfterStatements(tcx, body, [], d1, [b, c]) == AfterStatements(tcx, body, [], d2, [c]);
  }

  lemma {:induction false} Largest(s: set<Ty>) returns (m: Ty)
    requires s != {}
    ensures m in s && forall x | x in s :: Size(x) <= Size(m)
    decreases s
  {
    m :| m in s;
    if s != {m} {
      var n := Largest(s - {m});
      if Size(m) < Size(n) {
        m := n;
      }
    }
  }

  /** A finite set of types lacks the reference to one of them. */
  lemma NoSetIsWrapped(s: set<Ty>) returns (x: Ty)
    requires s != {}
    ensures x in s && RefTo(false, x) !in s
  {
    x := Largest(s);
    ElementSmaller([ERASED, x], 1);
    assert Size(RefTo(false, x)) > Size(x);
  }

  ghost function LoopSetting(): Setting
  {
    Setting(LoopTcx(), LOOP_BODY, [], Domain(DeclaredPlaces(LoopTcx(), LOOP_BODY), {}, {}))
  }

  lemma {:induction false} NothingIsReturned(tcx: Tcx, body: Body, d: Domain, es: seq<CallEffect>)
    ensures ApplyEffects(tcx, body, d, None, es).Some? && ApplyEffects(tcx, body, d, None, es).value.places == d.places
    decreases |es|
  {
    if es != [] {
      NothingIsReturned(tcx, body, d, es[..|es| - 1]);
    }
  }

  /** A transfer of the block does not panic, and wraps every type the object may have. */
  lemma StepWraps(d: Domain, es: seq<CallEffect>)
    requires InLoop(d)
    ensures BlockEffect(LoopTcx(), LOOP_BODY, [], d, 0, es).Some?
    ensures var d' := BlockEffect(LoopTcx(), LOOP_BODY, [], d, 0, es).value;
            InLoop(d') && I32_REF in d'.places[OBJECT].deps
            && forall x | x in d.places[OBJECT].deps :: RefTo(false, x) in d'.places[OBJECT].deps
  {
    RoundWraps(d);
    NothingIsReturned(LoopTcx(), LOOP_BODY, AfterStatements(LoopTcx(), LOOP_BODY, [], d, Round()).value, es);
  }

  lemma JoinStaysInLoop(a: Domain, b: Domain)
    requires InLoop(a) && InLoop(b)
    ensures InLoop(JoinDomains(a, b))
  {
  }

  lemma {:induction false} RunStaysInLoop(trace: seq<Step>)
    requires IsRun(LoopSetting(), trace)
    ensures InLoop(Entries(LoopSetting(), trace)[0])
    decreases |trace|
  {
    LoopStarts();
    if trace != [] {
      var n := |trace| - 1;
      PrefixIsRun(LoopSetting(), trace, n);
      RunStaysInLoop(trace[..n]);
      assert StepOk(LoopSetting(), trace, n);
      StepWraps(trace[n].input, trace[n].effects);
      LastStep(LoopSetting(), trace, 0);
      JoinStaysInLoop(Entries(LoopSetting(), trace[..n])[0], trace[n].output);
    }
  }

  /** Whatever blocks are picked, and however long: no run over this body reaches a fixpoint. */
  lemma NeverSettles(trace: seq<Step>)
    ensures !IsFixpoint(LoopSetting(), trace)
  {
    if IsFixpoint(LoopSetting(), trace) {
      assert Settled(LoopSetting(), trace, 0);
      RunStaysInLoop(trace);
      var d := Entries(LoopSetting(), trace)[0];
      var i :| 0 <= i < |trace| && SettledBy(LoopSetting(), Entries(LoopSetting(), trace), trace[i], 0);
      assert StepOk(LoopSetting(), trace, i);
      StepWraps(d, trace[i].effects);
      assert trace[i].output.places[OBJECT].deps <= d.places[OBJECT].deps;
      var x := NoSetIsWrapped(d.places[OBJECT].deps);
    }
  }

  /** There are runs of any length: the analysis goes on without a panic and without an end. */
  lemma {:induction false} RunsOn(n: nat) returns (trace: seq<Step>)
    ensures |trace| == n && IsRun(LoopSetting(), trace) && !IsFixpoint(LoopSetting(), trace)
    decreases n
  {
    trace := [];
    if n > 0 {
      var init := RunsOn(n - 1);
      RunStaysInLoop(init);
      var d := Entries(LoopSetting(), init)[0];
      StepWraps(d, []);
      var s := Step(0, d, [], BlockEffect(LoopTcx(), LOOP_BODY, [], d, 0, []).value);
      ExtendRun(LoopSetting(), init, s);
      trace := init + [s];
    }
    NeverSettles(trace);
  }

  // ---------------------------------------------------------------------------------------
  // No finite universe

  lemma LoopIsTheOrigins()
    ensures var f := OriginFunction(LoopTcx(), LOOP.instance);
            f == LOOP && Bottom(LoopTcx(), f) == Some(LoopSetting().bottom) && SettingOf(LoopTcx(), f) == LoopSetting()
  {
    assert OriginArgs(LoopTcx(), LOOP.instance) == [];
  }

  lemma {:induction false} StatementsOccur(tcx: Tcx, u: Universe, f: PartialFunction, d: Domain, stmts: seq<Statement>)
    requires FunctionStays(tcx, u, f) && u.stateOccurs(f.instance, d)
    requires forall stmt | stmt in stmts :: StatementIn(tcx.bodyOf(f.instance), stmt)
    requires AfterStatements(tcx, tcx.bodyOf(f.instance), f.instance.args, d, stmts).Some?
    ensures u.stateOccurs(f.instance, AfterStatements(tcx, tcx.bodyOf(f.instance), f.instance.args, d, stmts).value)
    decreases |stmts|
  {
    if stmts != [] {
      assert stmts[0] in stmts && StatementStays(tcx, u, f, stmts[0]);
      StatementsOccur(tcx, u, f, StatementEffect(tcx, tcx.bodyOf(f.instance), f.instance.args, d, stmts[0]).value, stmts[1..]);
    }
  }

  /** With any state that occurs there occurs one that knows more of the object. */
  lemma StateOutgrown(u: Universe, d: Domain) returns (d': Domain)
    requires FunctionStays(LoopTcx(), u, LOOP) && u.stateOccurs(LOOP.instance, d) && InLoop(d)
    ensures u.stateOccurs(LOOP.instance, d') && InLoop(d') && |d'.places[OBJECT].deps| > |d.places[OBJECT].deps|
  {
    RoundWraps(d);
    var after := AfterStatements(LoopTcx(), LOOP_BODY, [], d, Round()).value;
    assert forall stmt | stmt in Round() :: stmt in LOOP_BODY.blocks[0].statements;
    StatementsOccur(LoopTcx(), u, LOOP, d, Round());
    d' := JoinDomains(d, after);
    JoinStaysInLoop(d, after);
    var known, known' := d.places[OBJECT].deps, d'.places[OBJECT].deps;
    assert known' == known + after.places[OBJECT].deps;
    if known != {} {
      var x := NoSetIsWrapped(known);
      assert RefTo(false, x) in known';
    }
    ProperSubsetIsSmaller(known, known');
  }

  lemma {:induction false} StatesOfAnySize(u: Universe, n: nat) returns (d: Domain)
    requires FunctionStays(LoopTcx(), u, LOOP)
    ensures u.stateOccurs(LOOP.instance, d) && InLoop(d) && |d.places[OBJECT].deps| >= n
    decreases n
  {
    if n == 0 {
      LoopIsTheOrigins();
      LoopStarts();
      d := LoopSetting().bottom;
    } else {
      var smaller := StatesOfAnySize(u, n - 1);
      d := StateOutgrown(u, smaller);
    }
  }

  lemma {:induction false} TypesAreFacts(d: Domain, p: Place, tys: set<Ty>)
    requires p in d.places && d.places[p].Erased? && tys <= d.places[p].deps
    ensures |tys| <= |set ty | ty in tys :: TypeFact(p, ty)| && (set ty | ty in tys :: TypeFact(p, ty)) <= Facts(d)
    decreases tys
  {
    if tys != {} {
      var x :| x in tys;
      TypesAreFacts(d, p, tys - {x});
      assert (set ty | ty in tys :: TypeFact(p, ty)) == (set ty | ty in tys - {x} :: TypeFact(p, ty)) + {TypeFact(p, x)};
    }
  }

  /** The function has no finite closed universe. */
  lemma NoUniverse(u: Universe)
    ensures !(ClosedUniverse(LoopTcx(), u) && u.occurs(OriginFunction(LoopTcx(), LOOP.instance)))
  {
    LoopIsTheOrigins();
    if ClosedUniverse(LoopTcx(), u) && u.occurs(LOOP) {
      assert FunctionStays(LoopTcx(), u, LOOP);
      var all := u.facts(LOOP.instance);
      var d := StatesOfAnySize(u, |all| + 1);
      var known := d.places[OBJECT].deps;
      TypesAreFacts(d, OBJECT, known);
      SubsetIsNotLarger(set ty | ty in known :: TypeFact(OBJECT, ty), all);
    }
  }
}
