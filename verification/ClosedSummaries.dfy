/** Closure under projection, lifted from single updates to start states, block states and stored
    summaries. */
module ClosedSummaries {
  import opened Options
  import opened Types
  import opened TrackedTypes
  import opened Mir
  import opened Domains
  import opened CollectorDomains
  import opened ProjectionClosure
  import opened Transfers
  import opened Dataflow
  import opened Resolution
  import opened Evidence

  ghost predicate ClosedState(tcx: Tcx, body: Body, d: Domain) {
    Shaped(tcx, body, d) && ClosedUnderProjection(tcx, body, d)
  }

  // ---------------------------------------------------------------------------------------
  // Start states

  /** Everything that arrives with `t` inside `p` is propagated: no field of a known type hides
      something where a set is tracked. */
  ghost predicate ArrivesWhole(tcx: Tcx, body: Body, p: Place, t: TrackedTy) {
    t.Present? ==>
      forall q | q in tcx.interiorPaths(body, p) && q != p && ContainsErased(tcx.placeTy(body, q)) ::
        var x := ProjectTy(tcx, t.ty, VariantOf(p), Tail(p, q));
        x.Some? && !ContainsErased(x.value)
  }

  lemma AugmentElsewhere(tcx: Tcx, body: Body, d: Domain, p: Place, t: TrackedTy)
    requires p in d.places && Augment(tcx, body, d, p, t).Some?
    ensures Leq(d, Augment(tcx, body, d, p, t).value)
    ensures forall q | q in d.places && q != p && q !in tcx.interiorPaths(body, p) && !EndsInDeref(q) ::
              Augment(tcx, body, d, p, t).value.places[q] == d.places[q]
  {
    assert EndsInDeref(DerefOf(p));
  }

  lemma AugmentKeepsShape(tcx: Tcx, body: Body, d: Domain, p: Place, t: TrackedTy)
    requires Shaped(tcx, body, d) && p in body.places && Augment(tcx, body, d, p, t).Some?
    ensures Shaped(tcx, body, Augment(tcx, body, d, p, t).value)
  {
    AugmentElsewhere(tcx, body, d, p, t);
  }

  /** What arrived at `q` by projection projects on to what arrived at `r`. */
  lemma ArrivedProjectsOn(tcx: Tcx, body: Body, p: Place, t: TrackedTy, q: Place, r: Place, u: Ty)
    requires InteriorsOk(tcx, body) && p in body.places && ArrivesWhole(tcx, body, p, t)
    requires q in tcx.interiorPaths(body, p) && r in tcx.interiorPaths(body, q) && r != p
    requires ContainsErased(tcx.placeTy(body, r))
    requires ProjectTracked(tcx, t, p, q).Some? && ProjectTracked(tcx, t, p, r).Some?
    requires u in TypesOf(ProjectTracked(tcx, t, p, q).value)
    ensures ProjectTy(tcx, u, VariantOf(q), Tail(q, r)).Some?
    ensures ProjectTy(tcx, u, VariantOf(q), Tail(q, r)).value in TypesOf(ProjectTracked(tcx, t, p, r).value)
  {
    assert Extends(p, q) && Extends(q, r);
    if t.Erased? {
      ReceivedProjectsOn(tcx, t, p, q, r, u);
    } else {
      ProjectThrough(tcx, t.ty, p, q, r);
    }
  }

  lemma AugmentedInteriorIsClosed(tcx: Tcx, body: Body, d: Domain, p: Place, t: TrackedTy, q: Place, r: Place)
    requires InteriorsOk(tcx, body) && Shaped(tcx, body, d) && p in body.places
    requires ArrivesWhole(tcx, body, p, t) && Augment(tcx, body, d, p, t).Some?
    requires q in tcx.interiorPaths(body, p) && q != p && r in tcx.interiorPaths(body, q) && r != p && ClosedAt(tcx, d, q, r)
    ensures ClosedAt(tcx, Augment(tcx, body, d, p, t).value, q, r)
  {
    var d' := Augment(tcx, body, d, p, t).value;
    AugmentKeepsShape(tcx, body, d, p, t);
    if d'.places[q].Present? {
      PresentProjects(tcx, body, d', q, r);
    } else if d'.places[r].Erased? {
      AugmentAt(tcx, body, d, p, t, q);
      AugmentAt(tcx, body, d, p, t, r);
      var arrived, inside := TypesOf(ProjectTracked(tcx, t, p, q).value), TypesOf(ProjectTracked(tcx, t, p, r).value);
      ClosedAfterBothGrow(tcx, d, d', q, r, arrived, inside);
      forall u | u in arrived
        ensures ProjectTy(tcx, u, VariantOf(q), Tail(q, r)).Some?
        ensures ProjectTy(tcx, u, VariantOf(q), Tail(q, r)).value in inside
      {
        ArrivedProjectsOn(tcx, body, p, t, q, r, u);
      }
    }
  }

  /** Augmenting keeps the closure of the whole state if everything inside arrives. */
  lemma AugmentKeepsClosure(tcx: Tcx, body: Body, d: Domain, p: Place, t: TrackedTy)
    requires InteriorsOk(tcx, body) && ClosedState(tcx, body, d) && p in body.places
    requires ArrivesWhole(tcx, body, p, t) && Augment(tcx, body, d, p, t).Some?
    ensures ClosedState(tcx, body, Augment(tcx, body, d, p, t).value)
  {
    var d' := Augment(tcx, body, d, p, t).value;
    AugmentKeepsShape(tcx, body, d, p, t);
    AugmentElsewhere(tcx, body, d, p, t);
    forall q, r | q in body.places && r in tcx.interiorPaths(body, q) && !EndsInDeref(q)
      ensures ClosedAt(tcx, d', q, r)
    {
      assert ClosedAt(tcx, d, q, r);
      if r == q {
        if d'.places[q].Erased? {
          TargetSelfClosed(tcx, body, d', q);
        } else {
          PresentProjects(tcx, body, d', q, q);
        }
      } else if d'.places[q].Present? {
        PresentProjects(tcx, body, d', q, r);
      } else if q == p {
        AugmentedPlaceIsClosed(tcx, body, d, p, t, r);
      } else if q in tcx.interiorPaths(body, p) {
        InteriorsDoNotReturn(tcx, body, p, q, r);
        AugmentedInteriorIsClosed(tcx, body, d, p, t, q, r);
      } else {
        assert d'.places[q] == d.places[q];
      }
    }
  }

  lemma AugmentedPlaceIsClosed(tcx: Tcx, body: Body, d: Domain, p: Place, t: TrackedTy, r: Place)
    requires InteriorsOk(tcx, body) && Shaped(tcx, body, d) && p in body.places && ArrivesWhole(tcx, body, p, t)
    requires d.places[p].Erased? && r in tcx.interiorPaths(body, p) && r != p
    requires ClosedAt(tcx, d, p, r) && Augment(tcx, body, d, p, t).Some?
    ensures ClosedAt(tcx, Augment(tcx, body, d, p, t).value, p, r)
  {
    AugmentKeepsClosureExactly(tcx, body, d, p, t, r);
  }

  /** A place is not inside a different place that is inside it. */
  lemma InteriorsDoNotReturn(tcx: Tcx, body: Body, p: Place, q: Place, r: Place)
    requires InteriorsOk(tcx, body) && p in body.places
    requires q in tcx.interiorPaths(body, p) && q != p && r in tcx.interiorPaths(body, q)
    ensures r != p
  {
    assert Extends(p, q) && Extends(q, r);
    assert |p.proj| < |q.proj|;
  }

  /** All inputs of `f` arrive whole, at places the body has. */
  ghost predicate InputsArriveWhole(tcx: Tcx, f: PartialFunction) {
    var body := tcx.bodyOf(f.instance);
    && (forall k | 0 <= k < |f.trackedArgs| ::
          Place(k + 1, []) in body.places && ArrivesWhole(tcx, body, Place(k + 1, []), f.trackedArgs[k]))
    && (f.ClosureFunction? ==>
          forall k | 0 <= k < |f.info.upvars| ::
            UpvarPlace(tcx, body, k) in body.places && ArrivesWhole(tcx, body, UpvarPlace(tcx, body, k), f.info.upvars[k]))
  }

  lemma {:induction false} ArgsKeepClosure(tcx: Tcx, f: PartialFunction, d: Domain, i: nat)
    requires InteriorsOk(tcx, tcx.bodyOf(f.instance)) && ClosedState(tcx, tcx.bodyOf(f.instance), d) && InputsArriveWhole(tcx, f)
    requires AugmentArgs(tcx, tcx.bodyOf(f.instance), d, f.trackedArgs, i).Some?
    ensures ClosedState(tcx, tcx.bodyOf(f.instance), AugmentArgs(tcx, tcx.bodyOf(f.instance), d, f.trackedArgs, i).value)
    decreases |f.trackedArgs| - i
  {
    if i < |f.trackedArgs| {
      var body := tcx.bodyOf(f.instance);
      AugmentKeepsClosure(tcx, body, d, Place(i + 1, []), f.trackedArgs[i]);
      ArgsKeepClosure(tcx, f, Augment(tcx, body, d, Place(i + 1, []), f.trackedArgs[i]).value, i + 1);
    }
  }

  lemma {:induction false} UpvarsKeepClosure(tcx: Tcx, f: PartialFunction, d: Domain, i: nat)
    requires InteriorsOk(tcx, tcx.bodyOf(f.instance)) && ClosedState(tcx, tcx.bodyOf(f.instance), d)
    requires InputsArriveWhole(tcx, f) && f.ClosureFunction?
    requires AugmentUpvars(tcx, tcx.bodyOf(f.instance), d, f.info.upvars, i).Some?
    ensures ClosedState(tcx, tcx.bodyOf(f.instance), AugmentUpvars(tcx, tcx.bodyOf(f.instance), d, f.info.upvars, i).value)
    decreases |f.info.upvars| - i
  {
    if i < |f.info.upvars| {
      var body := tcx.bodyOf(f.instance);
      AugmentKeepsClosure(tcx, body, d, UpvarPlace(tcx, body, i), f.info.upvars[i]);
      UpvarsKeepClosure(tcx, f, Augment(tcx, body, d, UpvarPlace(tcx, body, i), f.info.upvars[i]).value, i + 1);
    }
  }

  /** The start state of a function whose inputs arrive whole is closed. */
  lemma BottomIsClosed(tcx: Tcx, f: PartialFunction)
    requires InteriorsOk(tcx, tcx.bodyOf(f.instance)) && InputsArriveWhole(tcx, f) && Bottom(tcx, f).Some?
    ensures ClosedState(tcx, tcx.bodyOf(f.instance), Bottom(tcx, f).value)
  {
    var body := tcx.bodyOf(f.instance);
    DeclaredIsClosed(tcx, body);
    var d := Domain(DeclaredPlaces(tcx, body), {}, {});
    if f.ClosureFunction? {
      UpvarsKeepClosure(tcx, f, d, 0);
      d := AugmentUpvars(tcx, body, d, f.info.upvars, 0).value;
    }
    ArgsKeepClosure(tcx, f, d, if tcx.isClosure(f.instance.did) then 1 else 0);
  }

  // ---------------------------------------------------------------------------------------
  // Blocks, runs and summaries

  lemma {:induction false} StatementsKeepClosure(tcx: Tcx, body: Body, substs: seq<Ty>, d: Domain, stmts: seq<Statement>)
    requires InteriorsOk(tcx, body) && ClosedState(tcx, body, d) && AfterStatements(tcx, body, substs, d, stmts).Some?
    ensures ClosedState(tcx, body, AfterStatements(tcx, body, substs, d, stmts).value)
    decreases |stmts|
  {
    if stmts != [] {
      if stmts[0].Assign? {
        UpdateKeepsClosure(tcx, body, d, stmts[0].place, RvalueTracked(tcx, body, substs, d, stmts[0].rvalue).value);
      }
      StatementsKeepClosure(tcx, body, substs, StatementEffect(tcx, body, substs, d, stmts[0]).value, stmts[1..]);
    }
  }

  /** The closure speaks of places only. */
  lemma CallsDoNotMatter(tcx: Tcx, body: Body, d: Domain, d': Domain)
    requires ClosedState(tcx, body, d) && d'.places == d.places
    ensures ClosedState(tcx, body, d')
  {
    forall p, q | p in body.places && q in tcx.interiorPaths(body, p) && !EndsInDeref(p)
      ensures ClosedAt(tcx, d', p, q)
    {
      assert ClosedAt(tcx, d, p, q);
    }
  }

  lemma {:induction false} EffectsKeepClosure(tcx: Tcx, body: Body, d: Domain, destination: Option<Place>, es: seq<CallEffect>)
    requires InteriorsOk(tcx, body) && ClosedState(tcx, body, d) && ApplyEffects(tcx, body, d, destination, es).Some?
    ensures ClosedState(tcx, body, ApplyEffects(tcx, body, d, destination, es).value)
    decreases |es|
  {
    if es != [] {
      var init, e := es[..|es| - 1], es[|es| - 1];
      EffectsKeepClosure(tcx, body, d, destination, init);
      var mid := ApplyEffects(tcx, body, d, destination, init).value;
      if e.Called? {
        var next := mid.(calls := mid.calls + {e.call});
        CallsDoNotMatter(tcx, body, mid, next);
        if e.returned.Some? && destination.Some? {
          UpdateKeepsClosure(tcx, body, next, destination.value, e.returned.value);
        }
      } else {
        CallsDoNotMatter(tcx, body, mid, mid.(unhandled := mid.unhandled + {e.ty}));
      }
    }
  }

  lemma BlockKeepsClosure(e: Setting, s: Step)
    requires InteriorsOk(e.tcx, e.body) && ValidStep(e, s) && ClosedState(e.tcx, e.body, s.input)
    ensures ClosedState(e.tcx, e.body, s.output)
  {
    var stmts := e.body.blocks[s.block].statements;
    StatementsKeepClosure(e.tcx, e.body, e.substs, s.input, stmts);
    EffectsKeepClosure(e.tcx, e.body, AfterStatements(e.tcx, e.body, e.substs, s.input, stmts).value,
                       Destination(e.body.blocks[s.block].terminator), s.effects);
  }

  /** Joining closed states gives a closed state. */
  lemma JoinKeepsClosure(tcx: Tcx, body: Body, a: Domain, b: Domain)
    requires ClosedState(tcx, body, a) && ClosedState(tcx, body, b)
    ensures ClosedState(tcx, body, JoinDomains(a, b))
  {
    var j := JoinDomains(a, b);
    forall p, q | p in body.places && q in tcx.interiorPaths(body, p) && !EndsInDeref(p)
      ensures ClosedAt(tcx, j, p, q)
    {
      assert ClosedAt(tcx, a, p, q) && ClosedAt(tcx, b, p, q);
      if a.places[p].Erased? && a.places[q].Erased? {
        ClosedAfterBothGrow(tcx, a, j, p, q, b.places[p].deps, b.places[q].deps);
        forall u | u in b.places[p].deps
          ensures ProjectTy(tcx, u, VariantOf(p), Tail(p, q)).Some?
          ensures ProjectTy(tcx, u, VariantOf(p), Tail(p, q)).value in b.places[q].deps
        {
          assert ProjectTracked(tcx, b.places[p], p, q).Some?;
        }
      }
    }
  }

  lemma {:induction false} EntriesAreClosed(e: Setting, trace: seq<Step>, b: nat)
    requires InteriorsOk(e.tcx, e.body) && ClosedState(e.tcx, e.body, e.bottom) && IsRun(e, trace) && b < |e.body.blocks|
    ensures ClosedState(e.tcx, e.body, Entries(e, trace)[b])
    decreases |trace|
  {
    if trace != [] {
      var n := |trace| - 1;
      PrefixIsRun(e, trace, n);
      EntriesAreClosed(e, trace[..n], b);
      LastStep(e, trace, b);
      assert StepOk(e, trace, n);
      EntriesAreClosed(e, trace[..n], trace[n].block);
      BlockKeepsClosure(e, trace[n]);
      JoinKeepsClosure(e.tcx, e.body, Entries(e, trace[..n])[b], trace[n].output);
    }
  }

  lemma {:induction false} JoinAllIsClosed(tcx: Tcx, body: Body, ends: seq<Step>)
    requires ends != [] && forall b | 0 <= b < |ends| :: ClosedState(tcx, body, ends[b].output)
    ensures ClosedState(tcx, body, JoinAll(ends))
    decreases |ends|
  {
    if |ends| > 1 {
      JoinAllIsClosed(tcx, body, ends[..|ends| - 1]);
      JoinKeepsClosure(tcx, body, JoinAll(ends[..|ends| - 1]), ends[|ends| - 1].output);
    }
  }

  /** In a certified summary of a function whose inputs arrive whole, and in all its block states, the
      types of a place, projected along an interior path, are tracked at its end (but for places that
      are themselves the target of a reference). */
  lemma SummariesAreClosed(tcx: Tcx, l: Ledger, instance: Instance, d: Domain, c: Certificate)
    requires CertifiedBy(tcx, l, instance, d, c)
    requires InteriorsOk(tcx, tcx.bodyOf(instance)) && InputsArriveWhole(tcx, c.Function())
    ensures ClosedState(tcx, tcx.bodyOf(instance), d)
    ensures forall b | 0 <= b < |tcx.bodyOf(instance).blocks| ::
              ClosedState(tcx, tcx.bodyOf(instance), Entries(SettingOf(tcx, c.Function()), c.run.steps)[b])
  {
    var e, ends := SettingOf(tcx, c.Function()), c.ends.steps;
    BottomIsClosed(tcx, c.Function());
    forall b | 0 <= b < |e.body.blocks| ensures ClosedState(tcx, e.body, Entries(e, c.run.steps)[b]) {
      EntriesAreClosed(e, c.run.steps, b);
    }
    forall b | 0 <= b < |ends| ensures ClosedState(tcx, e.body, ends[b].output) {
      BlockKeepsClosure(e, ends[b]);
    }
    JoinAllIsClosed(tcx, e.body, ends);
  }
}
