/** From collection to verdict: what a stored summary and a positive verdict say about every call
    site of every function looked into. */
module EndToEnd {
  import opened Options
  import opened Types
  import opened TrackedTypes
  import opened Mir
  import opened Domains
  import opened CollectorDomains
  import opened Transfers
  import opened Dataflow
  import opened FunctionStorage
  import opened ClosureStorage
  import opened Resolution
  import opened Callees
  import opened Evidence
  import opened Summaries
  import opened Failures
  import opened Collectors
  import opened ImportantLocals
  import opened Analyzer
  import opened TypeSoundness

  // ---------------------------------------------------------------------------------------
  // What a certificate says about the summary

  lemma EndsBelowSummary(tcx: Tcx, l: Ledger, instance: Instance, d: Domain, c: Certificate, b: nat)
    requires CertifiedBy(tcx, l, instance, d, c) && b < |c.ends.steps|
    ensures Leq(c.ends.steps[b].output, d)
    ensures CallsOf(c.ends.steps[b].effects) <= d.calls
    ensures UnhandledOf(c.ends.steps[b].effects) <= d.unhandled
  {
    var e, ends := SettingOf(tcx, c.Function()), c.ends.steps;
    forall k | 0 <= k < |ends| ensures Leq(e.bottom, ends[k].output) {
      EndShape(e, c.run.steps, ends, k);
    }
    JoinAllBounds(e.bottom, ends, b);
    BlockInflates(tcx, e.body, e.substs, ends[b].input, b, ends[b].effects);
  }

  /** The operand is tracked as `t`: as its place is, or by its declared type. */
  ghost predicate IsTrackedAs(tcx: Tcx, body: Body, d: Domain, op: Operand, t: TrackedTy) {
    || (exists ty :: op == Constant(ty) && t == FromTy(ty))
    || (exists p :: (op == Copy(p) || op == Move(p)) && t == if p in d.places then d.places[p] else FromTy(tcx.placeTy(body, p)))
  }

  ghost predicate AreTrackedAs(tcx: Tcx, body: Body, d: Domain, ops: seq<Operand>, tracked: seq<TrackedTy>) {
    |tracked| == |ops| && forall k | 0 <= k < |ops| :: IsTrackedAs(tcx, body, d, ops[k], tracked[k])
  }

  /** In state `d` the terminator calls what has the type `callee` with the operands `ops`, of which `tracked` is known:
      a call, with the function's type arguments in place, or the destructor of what is dropped, which gets it
      by a mutable reference. */
  ghost predicate CallsFor(tcx: Tcx, f: PartialFunction, d: Domain, t: Terminator, callee: Ty, ops: seq<Operand>, tracked: seq<TrackedTy>) {
    var body, substs := tcx.bodyOf(f.instance), f.instance.args;
    || (exists func, destination :: t == Call(func, ops, destination) && callee == Subst(func, substs)
                                    && AreTrackedAs(tcx, body, d, ops, tracked))
    || (exists p, adt, args, did :: t == Drop(p) && tcx.placeTy(body, p) == Ty(Adt(adt), args) && tcx.destructorOf(adt) == Some(did)
                                    && callee == Ty(FnDef(did), SubstAll(args, substs)) && ops == [Copy(p)]
                                    && tracked == [FromTy(Ty(Ref(true), [ERASED, Ty(Adt(adt), args)]))])
  }

  /** The call is made at the end of block `b`, from the state the fixpoint reached there. */
  ghost predicate FinallyCalls(tcx: Tcx, c: Certificate, b: nat, callee: Ty, ops: seq<Operand>, tracked: seq<TrackedTy>)
    requires c.chain != [] && b < |c.ends.steps|
  {
    var f := c.Function();
    var body := tcx.bodyOf(f.instance);
    && b < |body.blocks|
    && var d := AfterStatements(tcx, body, f.instance.args, c.ends.steps[b].input, body.blocks[b].statements);
       d.Some? && CallsFor(tcx, f, d.value, body.blocks[b].terminator, callee, ops, tracked)
  }

  lemma OnlyTrackedOnce(tcx: Tcx, body: Body, d: Domain, ops: seq<Operand>, tracked: seq<TrackedTy>)
    requires AreTrackedAs(tcx, body, d, ops, tracked)
    ensures tracked == ArgumentTypes(tcx, body, d, ops)
  {
    forall k | 0 <= k < |ops| ensures tracked[k] == ArgumentTypes(tcx, body, d, ops)[k] {
      assert IsTrackedAs(tcx, body, d, ops[k], tracked[k]);
    }
  }

  lemma CallsForSite(tcx: Tcx, f: PartialFunction, d: Domain, t: Terminator, callee: Ty, ops: seq<Operand>, tracked: seq<TrackedTy>)
    requires CallsFor(tcx, f, d, t, callee, ops, tracked)
    ensures CallSite(tcx, f, tcx.bodyOf(f.instance), d, t) == Some(Site(callee, ops, tracked))
  {
    var body, substs := tcx.bodyOf(f.instance), f.instance.args;
    if func, destination :| t == Call(func, ops, destination) && callee == Subst(func, substs) && AreTrackedAs(tcx, body, d, ops, tracked) {
      OnlyTrackedOnce(tcx, body, d, ops, tracked);
    } else {
      var p, adt, args, did :| t == Drop(p) && tcx.placeTy(body, p) == Ty(Adt(adt), args) && tcx.destructorOf(adt) == Some(did)
                               && callee == Ty(FnDef(did), SubstAll(args, substs)) && ops == [Copy(p)]
                               && tracked == [FromTy(Ty(Ref(true), [ERASED, Ty(Adt(adt), args)]))];
      assert Subst(Ty(FnDef(did), args), substs) == callee;
    }
  }

  /** The call of `g` is recorded: with its instance, or by its definition if it is an intrinsic or a virtual call. */
  predicate IsRecorded(calls: set<FunctionCall>, g: PartialFunction, ops: seq<Operand>) {
    match g.instance.kind
    case Intrinsic => WithoutBody(g.instance.did, ops) in calls
    case Virtual => WithoutBody(g.instance.did, ops) in calls
    case Item => WithBody(g.instance, ops) in calls
    case Shim => WithBody(g.instance, ops) in calls
  }

  /** A function with the definition and the tracked arguments of `g` was being analyzed when the
      chain got to its end, and has a stored summary. */
  ghost predicate AnalyzedAbove(fns: seq<FunctionInfo>, chain: seq<PartialFunction>, g: PartialFunction) {
    exists h :: h in chain && h.instance.did == g.instance.did && h.trackedArgs == g.trackedArgs && HasSummary(fns, h.instance)
  }

  /** The call is not lost: an unknown kind of callee is unhandled, an unresolved one a call without body, and every
      function it is resolved to is a recorded call, or was being analyzed already by a run that has stored its summary. */
  ghost predicate CallIsAccounted(tcx: Tcx, fns: seq<FunctionInfo>, c: Certificate, b: nat, d: Domain,
                                  callee: Ty, ops: seq<Operand>, tracked: seq<TrackedTy>)
    requires c.chain != [] && b < |c.ends.steps| && |c.ends.snapshots| == |c.ends.steps|
  {
    if !callee.head.FnDef? then callee in d.unhandled
    else
      match Resolve(tcx, c.Function(), callee.head.did, callee.args, tracked, c.ends.snapshots[b])
      case Panics => false
      case Failed => WithoutBody(callee.head.did, ops) in d.calls
      case Fine(callees) =>
        if callees == {} then WithoutBody(callee.head.did, ops) in d.calls
        else forall g | g in callees :: IsRecorded(d.calls, g, ops) || AnalyzedAbove(fns, c.chain, g)
  }

  /** No call at the end of block `b` is lost, nor that of a destructor. */
  ghost predicate SiteRecorded(tcx: Tcx, fns: seq<FunctionInfo>, c: Certificate, b: nat, d: Domain)
    requires c.chain != [] && b < |c.ends.steps| && |c.ends.snapshots| == |c.ends.steps|
  {
    forall callee, ops, tracked | FinallyCalls(tcx, c, b, callee, ops, tracked) :: CallIsAccounted(tcx, fns, c, b, d, callee, ops, tracked)
  }

  lemma OnStackIsAnalyzedAbove(tcx: Tcx, u: Universe, l: Ledger, instance: Instance, d: Domain, c: Certificate, g: PartialFunction)
    requires Evident(tcx, u, l, [], instance, d, c) && ItemOf(g) in StackOf(c.chain)
    ensures AnalyzedAbove(l.fns, c.chain, g)
  {
    var i :| 0 <= i < |StackOf(c.chain)| && StackOf(c.chain)[i] == ItemOf(g);
    assert c.chain[i] in c.chain;
    assert LiveOrStored(u, l.fns, [], c.chain[i]);
  }

  /** No call is silently lost. */
  lemma EveryCallSiteIsRecorded(tcx: Tcx, u: Universe, l: Ledger, instance: Instance, d: Domain, c: Certificate, b: nat)
    requires Evident(tcx, u, l, [], instance, d, c) && b < |c.ends.steps|
    ensures SiteRecorded(tcx, l.fns, c, b, d)
  {
    forall callee, ops, tracked | FinallyCalls(tcx, c, b, callee, ops, tracked)
      ensures CallIsAccounted(tcx, l.fns, c, b, d, callee, ops, tracked)
    {
      CallIsKept(tcx, u, l, instance, d, c, b, callee, ops, tracked);
    }
  }

  lemma CallIsKept(tcx: Tcx, u: Universe, l: Ledger, instance: Instance, d: Domain, c: Certificate, b: nat,
                   callee: Ty, ops: seq<Operand>, tracked: seq<TrackedTy>)
    requires Evident(tcx, u, l, [], instance, d, c) && b < |c.ends.steps| && FinallyCalls(tcx, c, b, callee, ops, tracked)
    ensures CallIsAccounted(tcx, l.fns, c, b, d, callee, ops, tracked)
  {
    EndsBelowSummary(tcx, l, instance, d, c, b);
    var es, site := c.ends.steps[b].effects, Site(callee, ops, tracked);
    SiteIsAccounted(tcx, l, c, b, site);
    if !callee.head.FnDef? {
      assert es[0] in es;
    } else {
      var r := ResolveSite(tcx, c.Function(), site, c.ends.snapshots[b]);
      if r.Failed? || (r.Fine? && r.value == {}) {
        assert es[0] in es;
      } else {
        forall g | g in r.value
          ensures IsRecorded(d.calls, g, ops) || AnalyzedAbove(l.fns, c.chain, g)
        {
          if ItemOf(g) in StackOf(c.chain) {
            OnStackIsAnalyzedAbove(tcx, u, l, instance, d, c, g);
          } else {
            FreshIsCalled(tcx, r.value, StackOf(c.chain), site, es, g);
          }
        }
      }
    }
  }

  lemma SiteIsAccounted(tcx: Tcx, l: Ledger, c: Certificate, b: nat, site: Site)
    requires ValidCertificate(tcx, l, c) && b < |c.ends.steps| && FinallyCalls(tcx, c, b, site.functionTy, site.args, site.argTys)
    ensures Accounts(tcx, c.Function(), site, c.ends.snapshots[b], StackOf(c.chain), c.ends.steps[b].effects)
  {
    var f := c.Function();
    var body := tcx.bodyOf(f.instance);
    assert StepRecorded(tcx, l, f, StackOf(c.chain), c.ends.steps[b], c.ends.snapshots[b]);
    var d := AfterStatements(tcx, body, f.instance.args, c.ends.steps[b].input, body.blocks[b].statements).value;
    CallsForSite(tcx, f, d, body.blocks[b].terminator, site.functionTy, site.args, site.argTys);
  }

  lemma FreshIsCalled(tcx: Tcx, callees: set<PartialFunction>, stack: seq<StackItem>, site: Site, es: seq<CallEffect>, g: PartialFunction)
    requires AreEffectsOf(tcx, FreshCallees(callees, stack), site, es) && g in callees && ItemOf(g) !in stack
    ensures CallTo(g, site.args) in CallsOf(es)
  {
    assert WasCalled(tcx, g, site, es);
    var e :| e in es && IsEffectOf(tcx, g, site, e);
  }

  /** Whatever may be run at a call is recorded, in the terms of the compiler's queries: a call with an unknown closure
      among its candidates, or without candidates, as one of the named definition; and else every candidate. */
  lemma EveryCandidateIsRecorded(tcx: Tcx, u: Universe, l: Ledger, instance: Instance, d: Domain, c: Certificate, b: nat,
                                 did: DefId, substs: seq<Ty>, ops: seq<Operand>, tracked: seq<TrackedTy>)
    requires Evident(tcx, u, l, [], instance, d, c) && b < |c.ends.steps|
    requires FinallyCalls(tcx, c, b, Ty(FnDef(did), substs), ops, tracked) && CandidatesTyped(tcx, did, substs, tracked)
    ensures var closures := c.ends.snapshots[b];
            && !IsUnresolvedBody(tcx, did, substs) && !SomeCannotBeCalled(tcx, did, substs, tracked)
            && (SomeIsUnknown(tcx, did, substs, tracked, closures) || (forall i :: !IsCandidate(tcx, did, substs, tracked, i)) ==>
                  WithoutBody(did, ops) in d.calls)
            && (!SomeIsUnknown(tcx, did, substs, tracked, closures) ==>
                  forall i, g | IsCandidate(tcx, did, substs, tracked, i) && RunsAs(tcx, c.Function(), i, tracked, closures, g) ::
                    IsRecorded(d.calls, g, ops) || AnalyzedAbove(l.fns, c.chain, g))
  {
    CallIsKept(tcx, u, l, instance, d, c, b, Ty(FnDef(did), substs), ops, tracked);
    ResolvedExactly(tcx, c.Function(), did, substs, tracked, c.ends.snapshots[b]);
    var r := Resolve(tcx, c.Function(), did, substs, tracked, c.ends.snapshots[b]);
    if r.Fine? {
      forall i, g | IsCandidate(tcx, did, substs, tracked, i) && RunsAs(tcx, c.Function(), i, tracked, c.ends.snapshots[b], g)
        ensures g in r.value
      {
      }
      if r.value != {} {
        var g :| g in r.value;
        var i :| IsCandidate(tcx, did, substs, tracked, i) && RunsAs(tcx, c.Function(), i, tracked, c.ends.snapshots[b], g);
      }
    }
  }

  /** A function that drops a value with a destructor has recorded the destructor, for the type it drops, or was itself
      called by one with the same arguments. */
  lemma DestructorIsRecorded(tcx: Tcx, u: Universe, l: Ledger, instance: Instance, d: Domain, c: Certificate, b: nat,
                             p: Place, adt: DefId, args: seq<Ty>, did: DefId, i: Instance)
    requires Evident(tcx, u, l, [], instance, d, c) && b < |c.ends.steps|
    requires tcx.bodyOf(instance).blocks[b].terminator == Drop(p)
    requires tcx.placeTy(tcx.bodyOf(instance), p) == Ty(Adt(adt), args) && tcx.destructorOf(adt) == Some(did)
    requires tcx.resolve(did, SubstAll(args, instance.args)) == Some(i) && tcx.mirAvailable(i.did)
    requires !tcx.isClosure(i.did) && TypedAsIs(tcx, i)
    ensures exists g :: RunsFunction(tcx, c.Function(), i, [FromTy(Ty(Ref(true), [ERASED, Ty(Adt(adt), args)]))], g)
                        && (IsRecorded(d.calls, g, [Copy(p)]) || AnalyzedAbove(l.fns, c.chain, g))
  {
    var callee, tracked := Ty(FnDef(did), SubstAll(args, instance.args)), [FromTy(Ty(Ref(true), [ERASED, Ty(Adt(adt), args)]))];
    assert ValidStep(SettingOf(tcx, c.Function()), c.ends.steps[b]);
    assert FinallyCalls(tcx, c, b, callee, [Copy(p)], tracked);
    CallIsKept(tcx, u, l, instance, d, c, b, callee, [Copy(p)], tracked);
    DirectCalleeIsRun(tcx, c.Function(), did, callee.args, tracked, c.ends.snapshots[b], i);
    var g :| Resolve(tcx, c.Function(), did, callee.args, tracked, c.ends.snapshots[b]).value == {g}
             && RunsAs(tcx, c.Function(), i, tracked, c.ends.snapshots[b], g);
    assert g in {g};
  }

  /** The items of the recursion guard tell `g` from every other function that occurs. */
  ghost predicate ItemNamesInstance(u: Universe, g: PartialFunction) {
    forall h | u.occurs(h) && ItemOf(h) == ItemOf(g) :: h.instance == g.instance
  }

  /** The recursion guard compares definitions and tracked arguments, not type arguments. A skipped
      callee has a stored summary of its own instance when the guard tells instances apart. */
  lemma SkippedCalleeHasSummary(tcx: Tcx, u: Universe, l: Ledger, instance: Instance, d: Domain, c: Certificate, g: PartialFunction)
    requires Evident(tcx, u, l, [], instance, d, c) && ItemOf(g) in StackOf(c.chain)
    requires ItemNamesInstance(u, g)
    ensures HasSummary(l.fns, g.instance)
  {
    OnStackIsAnalyzedAbove(tcx, u, l, instance, d, c, g);
    var h :| h in c.chain && ItemOf(h) == ItemOf(g) && HasSummary(l.fns, h.instance);
    assert LiveOrStored(u, l.fns, [], h);
  }

  // ---------------------------------------------------------------------------------------
  // Paths

  /** What any path through the body accumulates is in the summary: under a monotone transfer which
      the last visit of each block and the block ends cover. */
  ghost predicate PathsBelow(tcx: Tcx, c: Certificate, d: Domain)
    requires c.chain != [] && Bottom(tcx, c.Function()).Some?
  {
    forall f: Transfer, path | CoversFinally(tcx, c, f) && PathRuns(SettingOf(tcx, c.Function()), f, path) ::
      Leq(AlongPath(SettingOf(tcx, c.Function()), f, path), d)
  }

  ghost predicate CoversFinally(tcx: Tcx, c: Certificate, f: Transfer)
    requires c.chain != [] && Bottom(tcx, c.Function()).Some?
  {
    && Monotone(f)
    && FinallyAtLeast(SettingOf(tcx, c.Function()), c.run.steps, f)
    && forall b | 0 <= b < |c.ends.steps| :: AtLeast(f, c.ends.steps[b])
  }

  /** Every stored summary contains whatever any path through its body accumulates. */
  lemma StoredSummaryIsPathSound(tcx: Tcx, u: Universe, l: Ledger, k: nat)
    requires StorageOk(tcx, u, l, []) && k < |l.fns| && l.fns[k].InfoWithBody?
    ensures exists c :: Evident(tcx, u, l, [], l.fns[k].instance, DomainOf(l.fns[k]), c) && PathsBelow(tcx, c, DomainOf(l.fns[k]))
  {
    var c := CertificateOf(tcx, u, l, [], k);
    var e := SettingOf(tcx, c.Function());
    forall f: Transfer, path | CoversFinally(tcx, c, f) && PathRuns(e, f, path)
      ensures Leq(AlongPath(e, f, path), DomainOf(l.fns[k]))
    {
      PathSoundness(e, c.run.steps, c.ends.steps, f, path);
    }
    assert PathsBelow(tcx, c, DomainOf(l.fns[k]));
  }

  /** The body's own transfers, with every call doing no more than it was last recorded to do, are
      covered: fewer calls, and fewer types returned. */
  lemma FewerEffectsAreCovered(tcx: Tcx, l: Ledger, instance: Instance, d: Domain, c: Certificate, effects: nat -> seq<CallEffect>)
    requires CertifiedBy(tcx, l, instance, d, c)
    requires FinallyDid(SettingOf(tcx, c.Function()), c.run.steps, c.ends.steps, effects)
    ensures CoversFinally(tcx, c, FixedTransfer(SettingOf(tcx, c.Function()), effects))
  {
    DidAtLeast(SettingOf(tcx, c.Function()), c.run.steps, c.ends.steps, effects);
  }

  /** A type some path through the body makes a place hold is among the types the summary tracks
      for the place. */
  lemma PathTypesAreTracked(tcx: Tcx, l: Ledger, instance: Instance, d: Domain, c: Certificate,
                            f: Transfer, path: seq<nat>, p: Place, ty: Ty)
    requires CertifiedBy(tcx, l, instance, d, c) && CoversFinally(tcx, c, f)
    requires PathRuns(SettingOf(tcx, c.Function()), f, path)
    requires var at := AlongPath(SettingOf(tcx, c.Function()), f, path).places; p in at && Admits(at[p], ty)
    ensures p in d.places && Admits(d.places[p], ty)
  {
    var e := SettingOf(tcx, c.Function());
    PathSoundness(e, c.run.steps, c.ends.steps, f, path);
    BelowAdmits(AlongPath(e, f, path).places[p], d.places[p], ty);
  }

  // ---------------------------------------------------------------------------------------
  // Captured types

  lemma {:induction false} PrefixIsFine(tcx: Tcx, body: Body, substs: seq<Ty>, d: Domain, stmts: seq<Statement>, k: nat)
    requires k <= |stmts| && AfterStatements(tcx, body, substs, d, stmts).Some?
    ensures AfterStatements(tcx, body, substs, d, stmts[..k]).Some?
    decreases |stmts|
  {
    if k > 0 {
      assert stmts[..k][0] == stmts[0] && stmts[..k][1..] == stmts[1..][..k - 1];
      PrefixIsFine(tcx, body, substs, StatementEffect(tcx, body, substs, d, stmts[0]).value, stmts[1..], k - 1);
    }
  }

  /** What a summarized body captures when it creates a closure is in the closure storage at the end of the collection,
      operand by operand, whatever was joined to it before or after. */
  lemma CapturesSurvive(tcx: Tcx, l: Ledger, closures: Closures, instance: Instance, d: Domain, c: Certificate, b: nat, k: nat,
                        p: Place, did: DefId, args: seq<Ty>, ops: seq<Operand>)
    requires CertifiedBy(tcx, l, instance, d, c) && Replay(map[], l.history) == Some(closures)
    requires b < |c.ends.steps| && k < |tcx.bodyOf(instance).blocks[b].statements| && ops != []
    requires tcx.bodyOf(instance).blocks[b].statements[k] == Assign(p, Aggregate(ClosureOf(Ty(Closure(did), args)), ops))
    ensures did in closures && |closures[did].upvars| == |ops|
    ensures var body := tcx.bodyOf(instance);
            var before := AfterStatements(tcx, body, instance.args, c.ends.steps[b].input, body.blocks[b].statements[..k]);
            && before.Some?
            && forall j, t | 0 <= j < |ops| && IsTrackedAs(tcx, body, before.value, ops[j], t) :: Keeps(closures[did].upvars[j], t)
  {
    var body, input := tcx.bodyOf(instance), c.ends.steps[b].input;
    assert StepRecorded(tcx, l, c.Function(), StackOf(c.chain), c.ends.steps[b], c.ends.snapshots[b]);
    assert ValidStep(SettingOf(tcx, c.Function()), c.ends.steps[b]);
    PrefixIsFine(tcx, body, instance.args, input, body.blocks[b].statements, k);
    var before := AfterStatements(tcx, body, instance.args, input, body.blocks[b].statements[..k]).value;
    var e := Event(Ty(Closure(did), args), instance.args, ArgumentTypes(tcx, body, before, ops));
    assert CapturedAt(tcx, c.Function(), input, body.blocks[b].statements, k) == Some(e);
    CapturesAreKept(l.history, e, did);
    forall j, t | 0 <= j < |ops| && IsTrackedAs(tcx, body, before, ops[j], t) ensures t == e.upvars[j] {
    }
  }

  /** The closure storage an analysis resolved its calls with holds no more than the final one. */
  lemma SnapshotsOnlyGrow(l: Ledger, closures: Closures, snapshot: Closures, did: DefId)
    requires IsSnapshot(l.history, snapshot) && Replay(map[], l.history) == Some(closures) && did in snapshot
    ensures did in closures && closures[did].withSubsts == snapshot[did].withSubsts
    ensures snapshot[did].upvars != [] ==> |closures[did].upvars| == |snapshot[did].upvars|
    ensures forall j | 0 <= j < |snapshot[did].upvars| :: Below(snapshot[did].upvars[j], closures[did].upvars[j])
  {
    var n: nat :| n <= |l.history| && Replay(map[], l.history[..n]) == Some(snapshot);
    EntriesOnlyGrow(l.history, n, did);
  }

  // ---------------------------------------------------------------------------------------
  // What a positive verdict says

  /** The call is recorded, and what follows it, the first stored summary about its callee, passes. */
  ghost predicate CalleePasses(cx: Context, g: Frame, call: FunctionCall)
    requires IsFrame(cx, g)
  {
    call in g.item.Calls() && exists h :: Follows(cx, g, call, h) && IsFrame(cx, h) && Verdict(cx, h)
  }

  /** ... and is passed without a look. */
  ghost predicate CalleeUnseen(cx: Context, g: Frame, call: FunctionCall)
    requires IsFrame(cx, g)
  {
    call in g.item.Calls() && exists h :: Follows(cx, g, call, h) && IsFrame(cx, h) && PassesUnseen(cx.policy, h)
  }

  lemma CalleeFollows(cx: Context, g: Frame, call: FunctionCall)
    requires IsFrame(cx, g) && call in g.item.Calls()
    ensures Follows(cx, g, call, Child(cx, g, call))
  {
    assert call in cx.fns[Rank(cx.fns, g.item)].Calls();
  }

  /** A recorded call of an expanded frame that passes leads to one that passes; without a body it is allowlisted,
      trusted or untouched by important locals. */
  lemma RecordedPasses(cx: Context, g: Frame, call: FunctionCall)
    requires IsFrame(cx, g) && Verdict(cx, g) && !Skipped(cx.policy, g) && call in g.item.Calls()
    ensures CalleePasses(cx, g, call) && (call.WithoutBody? ==> CalleeUnseen(cx, g, call))
  {
    CalleeFollows(cx, g, call);
    assert Verdict(cx, Child(cx, g, call));
    if call.WithoutBody? {
      VerdictExactly(cx, Child(cx, g, call));
    }
  }

  /** The call of `h` passes, and without a look if it has no body. */
  ghost predicate CallPasses(cx: Context, g: Frame, h: PartialFunction, ops: seq<Operand>)
    requires IsFrame(cx, g)
  {
    match h.instance.kind
    case Intrinsic => CalleeUnseen(cx, g, WithoutBody(h.instance.did, ops))
    case Virtual => CalleeUnseen(cx, g, WithoutBody(h.instance.did, ops))
    case Item => CalleePasses(cx, g, WithBody(h.instance, ops))
    case Shim => CalleePasses(cx, g, WithBody(h.instance, ops))
  }

  /** The call is harmless: its callee is known, an unresolved one is passed unseen, by the name of its definition,
      and everything it is resolved to passes, or was being analyzed already by a run that has stored its summary. */
  ghost predicate CallIsSafe(tcx: Tcx, cx: Context, g: Frame, c: Certificate, b: nat, callee: Ty, ops: seq<Operand>, tracked: seq<TrackedTy>)
    requires IsFrame(cx, g) && c.chain != [] && b < |c.ends.steps| && |c.ends.snapshots| == |c.ends.steps|
  {
    && callee.head.FnDef?
    && match Resolve(tcx, c.Function(), callee.head.did, callee.args, tracked, c.ends.snapshots[b])
       case Panics => false
       case Failed => CalleeUnseen(cx, g, WithoutBody(callee.head.did, ops))
       case Fine(callees) =>
         if callees == {} then CalleeUnseen(cx, g, WithoutBody(callee.head.did, ops))
         else forall h | h in callees :: AnalyzedAbove(cx.fns, c.chain, h) || CallPasses(cx, g, h, ops)
  }

  /** All calls at the end of the block are harmless, those of destructors among them. */
  ghost predicate SiteIsSafe(tcx: Tcx, cx: Context, g: Frame, c: Certificate, b: nat)
    requires IsFrame(cx, g) && c.chain != [] && b < |c.ends.steps| && |c.ends.snapshots| == |c.ends.steps|
  {
    forall callee, ops, tracked | FinallyCalls(tcx, c, b, callee, ops, tracked) :: CallIsSafe(tcx, cx, g, c, b, callee, ops, tracked)
  }

  /** A frame reached from a passing one passes. */
  lemma ReachedPasses(cx: Context, origin: Frame, g: Frame)
    requires IsFrame(cx, origin) && Verdict(cx, origin) && Reaches(cx, origin, g) && IsFrame(cx, g)
    ensures Verdict(cx, g)
  {
    VisitedMeansReached(cx, origin, g);
    VerdictMeansAllVisitedPass(cx, origin);
  }

  /** If the origin passes, then in every function that was looked into, every call site of the
      analyzed body is safe, those of destructors among them: nothing was unhandled, nothing unresolved or
      without body was reached with important locals unless the configuration allows it. And the body itself writes
      through no raw pointer and does not transmute to something mutable. */
  lemma PositiveVerdictCoversEveryCallSite(tcx: Tcx, u: Universe, l: Ledger, cx: Context, origin: Frame, g: Frame)
    requires StorageOk(tcx, u, l, []) && cx.fns == l.fns && IsFrame(cx, origin) && IsFrame(cx, g)
    requires Verdict(cx, origin) && Reaches(cx, origin, g) && !PassesUnseen(cx.policy, g)
    ensures g.item.InfoWithBody? && g.item.unhandled == {}
    ensures !tcx.bodyOf(g.item.instance).hasRawPtrDeref && !tcx.bodyOf(g.item.instance).hasTransmute
    ensures exists c :: Evident(tcx, u, l, [], g.item.instance, DomainOf(g.item), c) &&
                        forall b | 0 <= b < |c.ends.steps| :: SiteIsSafe(tcx, cx, g, c, b)
  {
    ReachedPasses(cx, origin, g);
    VerdictExactly(cx, g);
    StoredSummaryHasItsBody(tcx, u, l, [], Rank(cx.fns, g.item));
    var c := CertificateOf(tcx, u, l, [], Rank(cx.fns, g.item));
    forall b | 0 <= b < |c.ends.steps|
      ensures SiteIsSafe(tcx, cx, g, c, b)
    {
      RecordedSiteIsSafe(tcx, u, l, cx, g, c, b);
    }
  }

  lemma RecordedSiteIsSafe(tcx: Tcx, u: Universe, l: Ledger, cx: Context, g: Frame, c: Certificate, b: nat)
    requires cx.fns == l.fns && IsFrame(cx, g) && Verdict(cx, g) && !Skipped(cx.policy, g)
    requires g.item.InfoWithBody? && Evident(tcx, u, l, [], g.item.instance, DomainOf(g.item), c)
    requires b < |c.ends.steps|
    ensures SiteIsSafe(tcx, cx, g, c, b)
  {
    forall callee, ops, tracked | FinallyCalls(tcx, c, b, callee, ops, tracked)
      ensures CallIsSafe(tcx, cx, g, c, b, callee, ops, tracked)
    {
      CallIsKept(tcx, u, l, g.item.instance, DomainOf(g.item), c, b, callee, ops, tracked);
      forall call | call in g.item.Calls()
        ensures CalleePasses(cx, g, call) && (call.WithoutBody? ==> CalleeUnseen(cx, g, call))
      {
        RecordedPasses(cx, g, call);
      }
    }
  }

  // ---------------------------------------------------------------------------------------
  // The whole analysis

  /** Closure calls follow their convention in everything that was collected. */
  ghost predicate ConventionsHold(flow: FlowContext, fns: seq<FunctionInfo>) {
    forall k, c | 0 <= k < |fns| && c in fns[k].Calls() :: ConventionHolds(flow, c)
  }

  /** Collects from `instance` and walks the collected call graph. A result of true means that no
      path of expanded frames reaches a frame that leaks by itself. It is not ok only if the collection
      came to an operation that panics or a closure call breaks the calling convention. What is judged is the outer run
      of the origin, with certificate `c`, if the origin's definition has a single item. */
  method AnalyzeInstance(tcx: Tcx, instance: Instance, importantArgs: set<nat>, flow: FlowContext, policy: Policy,
                         ghost u: Universe)
    returns (ok: bool, status: bool, fns: seq<FunctionInfo>, ghost history: seq<Event>, ghost results: Domain, ghost c: Certificate,
             ghost x: Failure)
    requires ClosedUniverse(tcx, u) && u.occurs(OriginFunction(tcx, instance))
    ensures !ok ==> Stopped(tcx, u, x) || !ConventionsHold(flow, fns)
    ensures NeverPanics(tcx, u) ==> (ok <==> ConventionsHold(flow, fns))
    ensures ok ==> StorageOk(tcx, u, Ledger(instance, fns, history), [])
    ensures ok ==> FindInstance(fns, instance).Some? && ConventionsHold(flow, fns)
    ensures ok ==>
              var cx := Context(flow, policy, fns);
              var origin := Frame(fns[FindInstance(fns, instance).value], FromImportantArgs(flow, importantArgs, instance.did));
              IsFrame(cx, origin) && (status <==> !exists g :: Reaches(cx, origin, g) && BadFrame(cx, g))
    ensures ok && OriginIsUnique(u, instance) ==>
              && fns[FindInstance(fns, instance).value] == SummaryOf(tcx, instance, results)
              && CertifiedBy(tcx, Ledger(instance, fns, history), instance, results, c)
              && c.chain == [OriginFunction(tcx, instance)]
  {
    var functions, closures;
    ghost var before;
    status, fns := false, [];
    ok, functions, closures, history, results, c, before, x := Collect(tcx, instance, u);
    if !ok {
      return;
    }
    fns := functions.fns;
    ok := FollowsConventions(flow, functions.fns);
    if !ok {
      return;
    }
    var report;
    status, report := Analyzer.Run(functions, FromImportantArgs(flow, importantArgs, instance.did), flow, policy);
  }

  predicate FollowsConventions(flow: FlowContext, fns: seq<FunctionInfo>)
    ensures FollowsConventions(flow, fns) <==> ConventionsHold(flow, fns)
  {
    forall k | 0 <= k < |fns| :: forall c | c in fns[k].Calls() :: ConventionHolds(flow, c)
  }
}
