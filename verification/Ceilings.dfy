/** Finite universes from ceilings. One state per instance that its own statements and calls leave
    where it is, and finitely many functions, bound everything a collection meets. */
module Ceilings {
  import opened Options
  import opened Types
  import opened TrackedTypes
  import opened Mir
  import opened Domains
  import opened CollectorDomains
  import opened Transfers
  import opened ClosureStorage
  import opened Resolution
  import opened Evidence
  import opened Summaries
  import opened Failures

  /** What the entry of a closure may hold at most. */
  datatype ClosureBound = ClosureBound(withSubsts: Ty, upvars: seq<set<Ty>>)

  datatype Ceiling = Ceiling(functions: set<PartialFunction>, states: map<Instance, Domain>, closures: map<DefId, ClosureBound>)

  predicate UpvarsWithin(upvars: seq<TrackedTy>, bound: ClosureBound) {
    upvars != [] ==> |upvars| == |bound.upvars| && forall j | 0 <= j < |upvars| :: TypesOf(upvars[j]) <= bound.upvars[j]
  }

  predicate ClosuresWithin(c: Closures, bounds: map<DefId, ClosureBound>) {
    forall did | did in c ::
      && did in bounds && c[did].withSubsts == bounds[did].withSubsts
      && UpvarsWithin(c[did].upvars, bounds[did])
  }

  ghost function UniverseOf(x: Ceiling): Universe {
    Universe(set f | f in x.functions :: ItemOf(f),
             i => if i in x.states then Facts(x.states[i]) else {},
             f => f in x.functions,
             c => ClosuresWithin(c, x.closures),
             (i, d) => i in x.states && Leq(d, x.states[i]))
  }

  /** Creating the closure stays within its bound. */
  predicate CaptureCovered(x: Ceiling, ty: Ty, substs: seq<Ty>, upvars: seq<TrackedTy>) {
    ty.head.Closure? ==>
      && ty.head.did in x.closures && Subst(ty, substs) == x.closures[ty.head.did].withSubsts
      && UpvarsWithin(upvars, x.closures[ty.head.did])
  }

  /** The ceiling absorbs the statement. */
  ghost predicate StatementCovered(tcx: Tcx, x: Ceiling, f: PartialFunction, stmt: Statement)
    requires f.instance in x.states
  {
    var body, substs, top := tcx.bodyOf(f.instance), f.instance.args, x.states[f.instance];
    && StatementEffect(tcx, body, substs, top, stmt).Some?
    && Leq(StatementEffect(tcx, body, substs, top, stmt).value, top)
    && var created := ClosureCreated(tcx, body, top, stmt);
       created.Some? ==> CaptureCovered(x, created.value.0, substs, created.value.1)
  }

  /** The ceiling holds the call to `g` and what `g` returns at its own ceiling. */
  ghost predicate CalleeCovered(tcx: Tcx, x: Ceiling, f: PartialFunction, site: Site, destination: Option<Place>, g: PartialFunction)
    requires f.instance in x.states
  {
    && g in x.functions && g.instance in x.states
    && var returned := ReturnedBy(tcx, g, x.states[g.instance]);
       returned.Some? ==>
         Holds(tcx, tcx.bodyOf(f.instance), x.states[f.instance], destination, Called(CallTo(g, site.args), returned))
  }

  ghost predicate SiteCovered(tcx: Tcx, x: Ceiling, f: PartialFunction, site: Site, destination: Option<Place>, c: Closures)
    requires f.instance in x.states
  {
    var body, top := tcx.bodyOf(f.instance), x.states[f.instance];
    if !site.functionTy.head.FnDef? then Holds(tcx, body, top, destination, NotHandled(site.functionTy))
    else
      match ResolveSite(tcx, f, site, c)
      case Panics => true
      case Failed => Holds(tcx, body, top, destination, UnresolvedCall(site))
      case Fine(callees) =>
        if callees == {} then Holds(tcx, body, top, destination, UnresolvedCall(site))
        else forall g {:trigger CalleeCovered(tcx, x, f, site, destination, g)} | g in callees ::
               CalleeCovered(tcx, x, f, site, destination, g)
  }

  ghost predicate TerminatorCovered(tcx: Tcx, x: Ceiling, f: PartialFunction, t: Terminator)
    requires f.instance in x.states
  {
    var body := tcx.bodyOf(f.instance);
    forall d, c {:trigger CallSite(tcx, f, body, d, t), ClosuresWithin(c, x.closures)} |
      Leq(d, x.states[f.instance]) && ClosuresWithin(c, x.closures) && CallSite(tcx, f, body, d, t).Some? ::
      SiteCovered(tcx, x, f, CallSite(tcx, f, body, d, t).value, Destination(t), c)
  }

  ghost predicate FunctionCovered(tcx: Tcx, x: Ceiling, f: PartialFunction) {
    var body := tcx.bodyOf(f.instance);
    && WellFormedBody(body)
    && f.instance in x.states
    && (Bottom(tcx, f).Some? ==> Leq(Bottom(tcx, f).value, x.states[f.instance]))
    && (forall ty | ty in body.types :: CaptureCovered(x, ty, f.instance.args, []))
    && (forall stmt {:trigger StatementCovered(tcx, x, f, stmt)} | StatementIn(body, stmt) :: StatementCovered(tcx, x, f, stmt))
    && (forall b {:trigger body.blocks[b]} | 0 <= b < |body.blocks| :: TerminatorCovered(tcx, x, f, body.blocks[b].terminator))
  }

  ghost predicate Covered(tcx: Tcx, x: Ceiling) {
    forall f {:trigger FunctionCovered(tcx, x, f)} | f in x.functions :: FunctionCovered(tcx, x, f)
  }

  lemma StatesBelowAreClosed(x: Ceiling, i: Instance)
    requires i in x.states
    ensures StatesClosed(UniverseOf(x), i)
  {
    var u, top := UniverseOf(x), x.states[i];
    forall d | Leq(d, top) ensures Facts(d) <= Facts(top) {
      LeqIsFactInclusion(d, top);
    }
    forall a, b | Leq(a, top) && Leq(b, top)
      ensures SameShape(a, b) && Leq(JoinDomains(a, b), top)
    {
      JoinIsLeastUpperBound(a, b);
    }
  }

  lemma StatementStaysBelow(tcx: Tcx, x: Ceiling, f: PartialFunction, stmt: Statement)
    requires f.instance in x.states && StatementCovered(tcx, x, f, stmt)
    ensures StatementStays(tcx, UniverseOf(x), f, stmt)
  {
    var body, substs, top := tcx.bodyOf(f.instance), f.instance.args, x.states[f.instance];
    forall d | Leq(d, top) && StatementEffect(tcx, body, substs, d, stmt).Some?
      ensures Leq(StatementEffect(tcx, body, substs, d, stmt).value, top)
    {
      StatementMonotone(tcx, body, substs, d, top, stmt);
      LeqTransitive(StatementEffect(tcx, body, substs, d, stmt).value, StatementEffect(tcx, body, substs, top, stmt).value, top);
    }
  }

  lemma CapturesStayWithin(x: Ceiling, c: Closures, ty: Ty, substs: seq<Ty>, upvars: seq<TrackedTy>)
    requires ClosuresWithin(c, x.closures) && CaptureCovered(x, ty, substs, upvars)
    ensures ClosureUpdateStays(UniverseOf(x), c, ty, substs, upvars)
  {
    var c' := UpdateClosures(c, ty, substs, upvars);
    if c'.Some? && ty.head.Closure? {
      var did := ty.head.did;
      forall other | other in c'.value
        ensures other in x.closures && c'.value[other].withSubsts == x.closures[other].withSubsts
                && UpvarsWithin(c'.value[other].upvars, x.closures[other])
      {
      }
    }
  }

  lemma ClosuresStayWithin(tcx: Tcx, x: Ceiling, f: PartialFunction, c: Closures)
    requires FunctionCovered(tcx, x, f) && ClosuresWithin(c, x.closures)
    ensures ClosuresStay(tcx, UniverseOf(x), f, c)
  {
    var u, body, substs, top := UniverseOf(x), tcx.bodyOf(f.instance), f.instance.args, x.states[f.instance];
    forall ty | ty in body.types ensures ClosureUpdateStays(u, c, ty, substs, []) {
      CapturesStayWithin(x, c, ty, substs, []);
    }
    forall d, stmt | StatementIn(body, stmt) && Leq(d, top) && ClosureCreated(tcx, body, d, stmt).Some?
      ensures ClosureUpdateStays(u, c, ClosureCreated(tcx, body, d, stmt).value.0, substs,
                                 ClosureCreated(tcx, body, d, stmt).value.1)
    {
      assert StatementCovered(tcx, x, f, stmt);
      var (ty, upvars) := ClosureCreated(tcx, body, d, stmt).value;
      var above := ClosureCreated(tcx, body, top, stmt).value.1;
      forall j | 0 <= j < |upvars| ensures TypesOf(upvars[j]) <= TypesOf(above[j]) {
        OperandMonotone(tcx, body, d, top, stmt.rvalue.operands[j]);
      }
      CapturesStayWithin(x, c, ty, substs, upvars);
    }
  }

  lemma EffectStaysBelow(tcx: Tcx, x: Ceiling, f: PartialFunction, destination: Option<Place>, e: CallEffect)
    requires f.instance in x.states && Holds(tcx, tcx.bodyOf(f.instance), x.states[f.instance], destination, e)
    ensures EffectStays(tcx, UniverseOf(x), f, destination, e)
  {
    var body, top := tcx.bodyOf(f.instance), x.states[f.instance];
    HeldChangesNothing(tcx, body, top, destination, e);
    forall d | Leq(d, top) && ApplyEffect(tcx, body, d, destination, e).Some?
      ensures Leq(ApplyEffect(tcx, body, d, destination, e).value, top)
    {
      EffectMonotone(tcx, body, d, top, destination, e);
    }
  }

  lemma CalleeStaysBelow(tcx: Tcx, x: Ceiling, f: PartialFunction, site: Site, destination: Option<Place>, g: PartialFunction)
    requires f.instance in x.states && CalleeCovered(tcx, x, f, site, destination, g)
    ensures CalleeStays(tcx, UniverseOf(x), f, site, destination, g)
  {
    var u, top := UniverseOf(x), x.states[g.instance];
    forall r | (HasNoBody(g) || u.stateOccurs(g.instance, r)) && ReturnedBy(tcx, g, r).Some?
      ensures EffectStays(tcx, u, f, destination, Called(CallTo(g, site.args), ReturnedBy(tcx, g, r)))
    {
      var returned := ReturnedBy(tcx, g, top);
      assert returned.Some? && TypesOf(ReturnedBy(tcx, g, r).value) <= TypesOf(returned.value);
      WeakerIsHeld(tcx, tcx.bodyOf(f.instance), x.states[f.instance], destination,
                   Called(CallTo(g, site.args), ReturnedBy(tcx, g, r)), Called(CallTo(g, site.args), returned));
      EffectStaysBelow(tcx, x, f, destination, Called(CallTo(g, site.args), ReturnedBy(tcx, g, r)));
    }
  }

  lemma SiteStaysBelow(tcx: Tcx, x: Ceiling, f: PartialFunction, site: Site, destination: Option<Place>, c: Closures)
    requires f.instance in x.states && SiteCovered(tcx, x, f, site, destination, c)
    ensures SiteStays(tcx, UniverseOf(x), f, site, destination, c)
  {
    var u := UniverseOf(x);
    if !site.functionTy.head.FnDef? {
      EffectStaysBelow(tcx, x, f, destination, NotHandled(site.functionTy));
    } else {
      match ResolveSite(tcx, f, site, c)
      case Panics =>
      case Failed => EffectStaysBelow(tcx, x, f, destination, UnresolvedCall(site));
      case Fine(callees) =>
        if callees == {} {
          EffectStaysBelow(tcx, x, f, destination, UnresolvedCall(site));
        } else {
          forall g | g in callees ensures CalleeStays(tcx, u, f, site, destination, g) {
            assert CalleeCovered(tcx, x, f, site, destination, g);
            CalleeStaysBelow(tcx, x, f, site, destination, g);
          }
        }
    }
  }

  lemma FunctionStaysBelow(tcx: Tcx, x: Ceiling, f: PartialFunction)
    requires f in x.functions && FunctionCovered(tcx, x, f)
    ensures FunctionStays(tcx, UniverseOf(x), f)
  {
    var u, body := UniverseOf(x), tcx.bodyOf(f.instance);
    StatesBelowAreClosed(x, f.instance);
    forall c | u.closuresOccur(c) ensures ClosuresStay(tcx, u, f, c) {
      ClosuresStayWithin(tcx, x, f, c);
    }
    forall stmt | StatementIn(body, stmt) ensures StatementStays(tcx, u, f, stmt) {
      assert StatementCovered(tcx, x, f, stmt);
      StatementStaysBelow(tcx, x, f, stmt);
    }
    forall b | 0 <= b < |body.blocks| ensures TerminatorStays(tcx, u, f, body.blocks[b].terminator) {
      var t := body.blocks[b].terminator;
      assert TerminatorCovered(tcx, x, f, t);
      forall d, c | u.stateOccurs(f.instance, d) && u.closuresOccur(c) && CallSite(tcx, f, body, d, t).Some?
        ensures SiteStays(tcx, u, f, CallSite(tcx, f, body, d, t).value, Destination(t), c)
      {
        SiteStaysBelow(tcx, x, f, CallSite(tcx, f, body, d, t).value, Destination(t), c);
      }
    }
  }

  /** A program with finitely many functions, each with a ceiling that absorbs what its statements
      and calls do at the ceiling, has a finite closed universe: its collection ends. */
  lemma CeilingsGiveUniverse(tcx: Tcx, x: Ceiling)
    requires Covered(tcx, x)
    ensures ClosedUniverse(tcx, UniverseOf(x))
    ensures forall f | f in x.functions :: UniverseOf(x).occurs(f)
  {
    forall f | UniverseOf(x).occurs(f) ensures FunctionStays(tcx, UniverseOf(x), f) {
      assert FunctionCovered(tcx, x, f);
      FunctionStaysBelow(tcx, x, f);
    }
  }

  // ---------------------------------------------------------------------------------------
  // Collections that do not panic

  /** What is asked for beyond a ceiling: start states exist, rvalues can be tracked and calls resolved in
      all states below it, and return places are tracked. That updates succeed follows. */
  ghost predicate FunctionQuiet(tcx: Tcx, x: Ceiling, f: PartialFunction) {
    var body, substs := tcx.bodyOf(f.instance), f.instance.args;
    && f.instance in x.states && RETURN_PLACE in x.states[f.instance].places
    && Bottom(tcx, f).Some?
    && (forall d, stmt {:trigger StatementEffect(tcx, body, substs, d, stmt)} |
          Leq(d, x.states[f.instance]) && StatementIn(body, stmt) && stmt.Assign? ::
          RvalueTracked(tcx, body, substs, d, stmt.rvalue).Some?)
    && forall d, c, b {:trigger CallSite(tcx, f, body, d, body.blocks[b].terminator), ClosuresWithin(c, x.closures)} |
         0 <= b < |body.blocks| && Leq(d, x.states[f.instance]) && ClosuresWithin(c, x.closures) ::
         var site := CallSite(tcx, f, body, d, body.blocks[b].terminator);
         site.Some? && site.value.functionTy.head.FnDef? ==> !ResolveSite(tcx, f, site.value, c).Panics?
  }

  ghost predicate Quiet(tcx: Tcx, x: Ceiling) {
    forall f {:trigger FunctionQuiet(tcx, x, f)} | f in x.functions :: FunctionQuiet(tcx, x, f)
  }

  lemma StatementsDoNotPanic(tcx: Tcx, x: Ceiling, f: PartialFunction, d: Domain, stmt: Statement, closures: Closures)
    requires FunctionQuiet(tcx, x, f) && Leq(d, x.states[f.instance]) && ClosuresWithin(closures, x.closures)
    requires StatementIn(tcx.bodyOf(f.instance), stmt) && StatementCovered(tcx, x, f, stmt)
    ensures !StatementPanics(tcx, f, d, stmt, closures)
  {
    var body, substs, top := tcx.bodyOf(f.instance), f.instance.args, x.states[f.instance];
    if stmt.Assign? {
      assert StatementEffect(tcx, body, substs, d, stmt).Some? by {
        var t, t' := RvalueTracked(tcx, body, substs, d, stmt.rvalue), RvalueTracked(tcx, body, substs, top, stmt.rvalue);
        assert t.Some? || StatementEffect(tcx, body, substs, d, stmt).None?;
        RvalueMonotone(tcx, body, substs, d, top, stmt.rvalue);
        UpdateMonotone(tcx, body, d, top, stmt.place, t.value, t'.value);
      }
      var created := ClosureCreated(tcx, body, d, stmt);
      if created.Some? {
        CapturesFit(x, closures, created.value.0, substs, created.value.1, ClosureCreated(tcx, body, top, stmt).value.1);
      }
    }
  }

  lemma CapturesFit(x: Ceiling, c: Closures, ty: Ty, substs: seq<Ty>, upvars: seq<TrackedTy>, above: seq<TrackedTy>)
    requires ClosuresWithin(c, x.closures) && CaptureCovered(x, ty, substs, above) && |above| == |upvars|
    ensures UpdateClosures(c, ty, substs, upvars).Some?
  {
  }

  lemma ReturnsFit(tcx: Tcx, x: Ceiling, f: PartialFunction, site: Site, destination: Option<Place>, g: PartialFunction, d: Domain, e: CallEffect)
    requires f.instance in x.states && CalleeCovered(tcx, x, f, site, destination, g) && Leq(d, x.states[f.instance])
    requires ReturnOccurs(tcx, UniverseOf(x), g, site, e)
    ensures ApplyEffect(tcx, tcx.bodyOf(f.instance), d, destination, e).Some?
  {
    var body, top := tcx.bodyOf(f.instance), x.states[f.instance];
    var r :| (HasNoBody(g) || UniverseOf(x).stateOccurs(g.instance, r)) && ReturnedBy(tcx, g, r).Some?
             && e == Called(CallTo(g, site.args), ReturnedBy(tcx, g, r));
    var returned := ReturnedBy(tcx, g, x.states[g.instance]);
    assert returned.Some? && TypesOf(ReturnedBy(tcx, g, r).value) <= TypesOf(returned.value);
    WeakerIsHeld(tcx, body, top, destination, e, Called(CallTo(g, site.args), returned));
    HeldChangesNothing(tcx, body, top, destination, e);
    EffectMonotone(tcx, body, d, top, destination, e);
  }

  lemma OperationDoesNotPanic(tcx: Tcx, x: Ceiling, f: PartialFunction, b: nat, op: Operation)
    requires Covered(tcx, x) && Quiet(tcx, x) && OperationOccurs(tcx, UniverseOf(x), f, b, op)
    ensures !OperationPanics(tcx, f, b, op)
  {
    var body := tcx.bodyOf(f.instance);
    assert FunctionCovered(tcx, x, f) && FunctionQuiet(tcx, x, f);
    match op
    case StartState =>
    case RunStatement(k, d, closures) =>
      if b < |body.blocks| && k < |body.blocks[b].statements| {
        var stmt := body.blocks[b].statements[k];
        assert StatementIn(body, stmt) && StatementCovered(tcx, x, f, stmt);
        StatementsDoNotPanic(tcx, x, f, d, stmt, closures);
      }
    case ResolveCallee(site, closures) =>
      var d :| UniverseOf(x).stateOccurs(f.instance, d) && CallSite(tcx, f, body, d, BlockOf(tcx, f, b).value.terminator) == Some(site);
      assert body.blocks[b].terminator == BlockOf(tcx, f, b).value.terminator;
    case TakeReturnType(_, _, g, _) => assert FunctionQuiet(tcx, x, g);
    case PassReturn(site, closures, g, _, _, d, e) =>
      var d' :| UniverseOf(x).stateOccurs(f.instance, d') && CallSite(tcx, f, body, d', BlockOf(tcx, f, b).value.terminator) == Some(site);
      var t := body.blocks[b].terminator;
      assert TerminatorCovered(tcx, x, f, t) && SiteCovered(tcx, x, f, site, Destination(t), closures);
      assert CalleeCovered(tcx, x, f, site, Destination(t), g);
      ReturnsFit(tcx, x, f, site, Destination(t), g, d, e);
  }

  /** In a program with ceilings that is quiet no operation panics: its collections succeed. */
  lemma CeilingsNeverPanic(tcx: Tcx, x: Ceiling)
    requires Covered(tcx, x) && Quiet(tcx, x)
    ensures NeverPanics(tcx, UniverseOf(x))
  {
    forall f, b, op | OperationOccurs(tcx, UniverseOf(x), f, b, op) ensures !OperationPanics(tcx, f, b, op) {
      OperationDoesNotPanic(tcx, x, f, b, op);
    }
  }
}
