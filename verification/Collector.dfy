/** The type collector: nested dataflow runs that share the two storages. */
module Collectors {
  import opened Options
  import opened Types
  import opened TrackedTypes
  import opened Mir
  import opened Domains
  import opened CollectorDomains
  import opened Transfers
  import opened Dataflow
  import opened FunctionStorage
  import opened ClosureStorage
  import opened Resolution
  import opened Evidence
  import opened Summaries
  import opened Failures

  ghost function ItemsOf(stack: seq<StackItem>): set<StackItem> {
    set i | i in stack
  }

  /** The recursion guard: what is being analyzed right now. */
  class VirtualStack {
    var stack: seq<StackItem>
    ghost var frames: seq<PartialFunction>

    constructor ()
      ensures stack == [] && frames == [] && Valid()
    {
      stack, frames := [], [];
    }

    constructor Clone(other: VirtualStack)
      ensures stack == other.stack && frames == other.frames
    {
      stack, frames := other.stack, other.frames;
    }

    /** The items are those of the functions being analyzed, outermost first. */
    ghost predicate Valid()
      reads this
    {
      stack == StackOf(frames)
    }

    method Push(item: StackItem, ghost f: PartialFunction)
      requires Valid() && item == ItemOf(f)
      modifies this
      ensures Valid() && stack == old(stack) + [item] && frames == old(frames) + [f]
    {
      stack := stack + [item];
      frames := frames + [f];
      assert stack == StackOf(frames);
    }

    predicate Contains(item: StackItem)
      reads this
    {
      item in stack
    }
  }

  /** What all block states of one run know, as a set, and all they may know. */
  ghost function Known(entries: seq<Domain>): set<(nat, Fact)> {
    set b: nat, x | b < |entries| && x in Facts(entries[b]) :: (b, x)
  }

  ghost function Knowable(n: nat, facts: set<Fact>): set<(nat, Fact)> {
    set b: nat, x | b < n && x in facts :: (b, x)
  }

  /** What is left to learn does not grow, and shrinks if something changed. */
  ghost predicate Progress(n: nat, entries: seq<Domain>, entries': seq<Domain>, facts: set<Fact>, changed: bool) {
    if changed then Knowable(n, facts) - Known(entries') < Knowable(n, facts) - Known(entries)
    else Knowable(n, facts) - Known(entries') <= Knowable(n, facts) - Known(entries)
  }

  /** Joining something new into one entry leaves strictly less to learn. */
  lemma EntryGrows(entries: seq<Domain>, t: nat, output: Domain, facts: set<Fact>)
    requires t < |entries| && SameShape(entries[t], output) && !Leq(output, entries[t])
    requires Facts(JoinDomains(entries[t], output)) <= facts
    ensures var entries' := entries[t := JoinDomains(entries[t], output)];
            Progress(|entries|, entries, entries', facts, true)
  {
    var j := JoinDomains(entries[t], output);
    var entries' := entries[t := j];
    ChangeGrowsFacts(entries[t], output);
    var x :| x in Facts(j) && x !in Facts(entries[t]);
    assert (t, x) in Known(entries') && (t, x) !in Known(entries);
    assert Known(entries) <= Known(entries') by {
      forall y | y in Known(entries) ensures y in Known(entries') {
        assert y.1 in Facts(entries[y.0]);
        assert y.1 in Facts(entries'[y.0]);
      }
    }
    assert (t, x) in Knowable(|entries|, facts);
  }

  lemma ProgressAdds(n: nat, a: seq<Domain>, b: seq<Domain>, c: seq<Domain>, facts: set<Fact>, first: bool, second: bool)
    requires Progress(n, a, b, facts, first) && Progress(n, b, c, facts, second)
    ensures Progress(n, a, c, facts, first || second)
  {
  }

  class Collector {
    const tcx: Tcx
    const current: PartialFunction
    const body: Body
    const virtualStack: VirtualStack
    const functions: FunctionInfoStorage
    const closures: ClosureInfoStorage

    constructor (current: PartialFunction, virtualStack: VirtualStack, functions: FunctionInfoStorage,
                 closures: ClosureInfoStorage, tcx: Tcx)
      ensures this.current == current && this.virtualStack == virtualStack && this.functions == functions
      ensures this.closures == closures && this.tcx == tcx
      ensures Initialized()
    {
      this.current, this.virtualStack, this.functions := current, virtualStack, functions;
      this.closures, this.tcx := closures, tcx;
      this.body := tcx.bodyOf(current.instance);
    }

    ghost predicate Initialized() {
      body == tcx.bodyOf(current.instance)
    }

    /** The items the recursion guard does not hold. */
    ghost function Unvisited(u: Universe): set<StackItem>
      reads virtualStack
    {
      u.items - ItemsOf(virtualStack.stack)
    }

    /** What all runs of the collection share. */
    ghost function Shared(): Ledger
      reads functions, closures
    {
      Ledger(functions.origin, functions.fns, closures.history)
    }

    /** The invariant of a collection, `live` being the analyses that go on. */
    ghost predicate Consistent(u: Universe, live: seq<PartialFunction>)
      reads virtualStack, functions, closures
    {
      && Initialized()
      && u.occurs(current)
      && virtualStack.Valid()
      && Sane(tcx, u, Shared(), closures.closures, virtualStack.frames, live)
    }

    /** What holds whenever the collector or one of its callees is at work. */
    ghost predicate Working(u: Universe)
      reads virtualStack, functions, closures
    {
      && Consistent(u, virtualStack.frames)
      && virtualStack.frames != [] && Last(virtualStack.frames) == current
    }

    /** What holds when the collector is about to start. */
    ghost predicate Ready(u: Universe)
      reads virtualStack, functions, closures
    {
      && Consistent(u, virtualStack.frames)
      && MayFollow(tcx, Shared(), virtualStack.frames, current)
      && (virtualStack.frames == [] ==> functions.fns == [])
    }

    /** The present analysis is at a call that resolves to `g`, which is not being analyzed. */
    ghost predicate AtCallee(w: CallPoint, site: Site, g: PartialFunction)
      reads virtualStack, functions, closures
    {
      && ReachesSite(tcx, Shared(), virtualStack.frames, w, site)
      && IsCallee(tcx, current, site, w.closures, g)
      && ItemOf(g) !in virtualStack.stack
    }

    /** The call is one that can be met in the universe, and so is its callee. */
    ghost predicate CalleeOccurs(u: Universe, w: CallPoint, site: Site, g: PartialFunction) {
      SiteOccurs(tcx, u, current, w.block, site) && u.closuresOccur(w.closures) && u.occurs(g)
    }

    /** Stores a summary without body that answers `call`. */
    method StoreWithoutBody(did: DefId, args: seq<TrackedTy>, ghost call: FunctionCall, ghost u: Universe)
      requires Working(u) && call.WithoutBody? && call.did == did
      modifies functions
      ensures Working(u) && Extended(old(Shared()), Shared()) && Find(functions.fns, call).Some?
      ensures InfoWithoutBody(did, args) in functions.fns
    {
      ghost var l, live := Shared(), virtualStack.frames;
      var info := InfoWithoutBody(did, args);
      SaneAfterInsert(tcx, u, l, closures.closures, live, live, live, live, info);
      InsertedAnswers(functions.fns, info, call);
      InsertedExactly(functions.fns, info);
      functions.Insert(info);
      assert Shared() == l.(fns := Inserted(l.fns, info));
    }

    lemma StoredJustifies(g: PartialFunction, results: Domain, e: CallEffect)
      requires Contains(functions.fns, SummaryOf(tcx, g.instance, results))
      requires e.Called? && (e.call.WithBody? ==> e.call.instance == g.instance)
      requires e.returned.Some? && e.returned == ReturnType(tcx, tcx.bodyOf(g.instance), results.places)
      ensures Justified(tcx, functions.fns, e)
    {
      var k :| 0 <= k < |functions.fns| && SameInfo(functions.fns[k], SummaryOf(tcx, g.instance, results));
      assert IsSummaryOf(functions.fns[k], g.instance);
    }

    /** Analyzes a callee that has a body, in a nested run, and stores its summary. */
    method AnalyzeBody(g: PartialFunction, site: Site, ghost call: FunctionCall, ghost w: CallPoint, ghost u: Universe)
      returns (ok: bool, returned: Option<TrackedTy>, ghost summary: Domain, ghost x: Failure)
      requires Working(u) && AtCallee(w, site, g) && CalleeOccurs(u, w, site, g)
      requires call.WithBody? && call.instance == g.instance
      modifies functions, closures
      ensures ok ==> Working(u) && Extended(old(Shared()), Shared())
      ensures ok ==> Find(functions.fns, call).Some? && Justified(tcx, functions.fns, Called(call, returned))
      ensures ok ==> u.stateOccurs(g.instance, summary)
      ensures ok ==> returned.Some? && returned == ReturnType(tcx, tcx.bodyOf(g.instance), summary.places)
      ensures ok || StoppedAfter(tcx, u, old(Shared()), x)
      decreases Unvisited(u), 2
    {
      summary, returned := Domain(map[], {}, {}), None;
      ghost var l := Shared();
      var results;
      ghost var c;
      ok, results, c, x := RunNested(g, site, w, u);
      if !ok {
        return;
      }
      summary := results;
      StoreNested(g, results, c, call, u);
      returned := ReturnType(tcx, tcx.bodyOf(g.instance), results.places);
      ok := returned.Some?;
      if ok {
        StoredJustifies(g, results, Called(call, returned));
      } else {
        x := Failure(Shared(), virtualStack.frames, w.run, w.block, TakeReturnType(site, w.closures, g, results));
        NoReturnType(g, site, results, w, l, u);
      }
    }

    lemma NoReturnType(g: PartialFunction, site: Site, results: Domain, w: CallPoint, l: Ledger, u: Universe)
      requires Working(u) && Extended(l, Shared()) && ReachesSite(tcx, l, virtualStack.frames, w, site)
      requires IsCallee(tcx, current, site, w.closures, g) && CalleeOccurs(u, w, site, g)
      requires Contains(functions.fns, SummaryOf(tcx, g.instance, results)) && u.stateOccurs(g.instance, results)
      requires ReturnType(tcx, tcx.bodyOf(g.instance), results.places).None?
      ensures StoppedAfter(tcx, u, l, Failure(Shared(), virtualStack.frames, w.run, w.block, TakeReturnType(site, w.closures, g, results)))
    {
      SiteIsStable(tcx, l, Shared(), virtualStack.frames, w, site);
    }

    /** A nested run with a copy of the stack: on it the callee comes on top. */
    method RunNested(g: PartialFunction, site: Site, ghost w: CallPoint, ghost u: Universe)
      returns (ok: bool, results: Domain, ghost c: Certificate, ghost x: Failure)
      requires Working(u) && AtCallee(w, site, g) && u.occurs(g)
      modifies functions, closures
      ensures ok ==> Sane(tcx, u, Shared(), closures.closures, virtualStack.frames + [g], virtualStack.frames + [g])
      ensures ok ==> Extended(old(Shared()), Shared())
      ensures ok ==> Certifies(tcx, u, Shared(), virtualStack.frames + [g], 1, g.instance, results, c)
      ensures ok ==> Resolvable(functions.fns, results.calls)
      ensures ok || StoppedAfter(tcx, u, old(Shared()), x)
      decreases Unvisited(u), 1
    {
      var nested := Nested(g, site, w, u);
      ok, results, c, x := nested.Run(u);
    }

    method Nested(g: PartialFunction, site: Site, ghost w: CallPoint, ghost u: Universe) returns (nested: Collector)
      requires Working(u) && AtCallee(w, site, g) && u.occurs(g)
      ensures fresh(nested) && fresh(nested.virtualStack) && nested.tcx == tcx && nested.current == g
      ensures nested.functions == functions && nested.closures == closures && nested.Shared() == Shared()
      ensures nested.virtualStack.frames == virtualStack.frames && nested.Unvisited(u) == Unvisited(u)
      ensures nested.Ready(u)
    {
      var stack := new VirtualStack.Clone(virtualStack);
      nested := new Collector(g, stack, functions, closures, tcx);
      assert nested.Shared() == Shared();
      assert ComesToCall(tcx, Shared(), virtualStack.frames, g);
    }

    /** Stores what a nested run found; with that the run has ended. */
    method StoreNested(g: PartialFunction, results: Domain, ghost c: Certificate, ghost call: FunctionCall, ghost u: Universe)
      requires Initialized() && u.occurs(current) && virtualStack.Valid()
      requires virtualStack.frames != [] && Last(virtualStack.frames) == current
      requires Sane(tcx, u, Shared(), closures.closures, virtualStack.frames + [g], virtualStack.frames + [g])
      requires Certifies(tcx, u, Shared(), virtualStack.frames + [g], 1, g.instance, results, c)
      requires call.WithBody? && call.instance == g.instance && Resolvable(functions.fns, results.calls)
      modifies functions
      ensures Working(u) && Extended(old(Shared()), Shared())
      ensures Contains(functions.fns, SummaryOf(tcx, g.instance, results)) && Find(functions.fns, call).Some?
    {
      ghost var l := Shared();
      var info := SummaryOf(tcx, g.instance, results);
      SaneAfterAnalysis(tcx, u, l, closures.closures, virtualStack.frames, g, results, c);
      InsertedAnswers(functions.fns, info, call);
      functions.Insert(info);
      assert Shared() == l.(fns := Inserted(l.fns, info));
    }

    /** Finds out what a callee returns: nested analysis for a function with a body, the declared
        return type otherwise. Either way a summary answering the call is stored. */
    method AnalyzeCallee(g: PartialFunction, site: Site, ghost w: CallPoint, ghost u: Universe)
      returns (ok: bool, returned: Option<TrackedTy>, ghost summary: Domain, ghost x: Failure)
      requires Working(u) && AtCallee(w, site, g) && CalleeOccurs(u, w, site, g)
      modifies functions, closures
      ensures ok ==> Working(u) && Extended(old(Shared()), Shared())
      ensures ok ==> Find(functions.fns, CallTo(g, site.args)).Some?
      ensures ok && HasNoBody(g) ==> InfoWithoutBody(g.instance.did, site.argTys) in functions.fns
      ensures ok ==> Justified(tcx, functions.fns, Called(CallTo(g, site.args), returned))
      ensures ok ==> (HasNoBody(g) || u.stateOccurs(g.instance, summary))
      ensures ok ==> returned.Some? && returned == ReturnedBy(tcx, g, summary)
      ensures ok || StoppedAfter(tcx, u, old(Shared()), x)
      decreases Unvisited(u), 3
    {
      if HasNoBody(g) {
        StoreWithoutBody(g.instance.did, site.argTys, CallTo(g, site.args), u);
        x := Failure(Shared(), [], Recording([], []), 0, StartState);
        return true, Some(FromTy(tcx.outputOf(g.instance))), Domain(map[], {}, {}), x;
      }
      ok, returned, summary, x := AnalyzeBody(g, site, CallTo(g, site.args), w, u);
    }

    /** Analyzes one callee and records the call to it. */
    method ProcessCallee(g: PartialFunction, site: Site, state: CollectorDomain, destination: Option<Place>,
                         ghost done: set<PartialFunction>, ghost es: seq<CallEffect>, ghost w: CallPoint, ghost u: Universe)
      returns (ok: bool, ghost e: CallEffect, ghost x: Failure)
      requires Working(u) && AtCallee(w, site, g) && CalleeOccurs(u, w, site, g)
      requires CalleeStays(tcx, u, current, site, destination, g)
      requires u.stateOccurs(current.instance, state.View())
      requires InCall(w, destination, es, state.View()) && OthersDone(tcx, virtualStack.frames, site, w.closures, g, done, es)
      modifies state, functions, closures
      ensures ok ==> Working(u) && Extended(old(Shared()), Shared())
      ensures ok ==> ApplyEffect(tcx, body, old(state.View()), destination, e) == Some(state.View())
      ensures ok ==> IsEffectOf(tcx, g, site, e)
      ensures ok ==> Find(functions.fns, e.call).Some? && Justified(tcx, functions.fns, e)
      ensures ok && HasNoBody(g) ==> InfoWithoutBody(g.instance.did, site.argTys) in functions.fns
      ensures ok ==> u.stateOccurs(current.instance, state.View())
      ensures ok || StoppedAfter(tcx, u, old(Shared()), x)
      decreases Unvisited(u), 4
    {
      ghost var l, before := Shared(), state.View();
      var returned;
      ghost var summary;
      ok, returned, summary, x := AnalyzeCallee(g, site, w, u);
      e := Called(CallTo(g, site.args), returned);
      if !ok {
        return;
      }
      assert EffectStays(tcx, u, current, destination, e);
      assert ReturnOccurs(tcx, u, g, site, e);
      ok := TakeEffect(CallTo(g, site.args), returned.value, state, destination);
      if !ok {
        x := Failure(Shared(), virtualStack.frames, w.run, w.block, PassReturn(site, w.closures, g, done, es, before, e));
        ReturnDoesNotFit(g, site, destination, done, es, before, e, w, l, u);
      }
    }

    /** Records a call, and passes the type it returned to its destination. */
    method TakeEffect(call: FunctionCall, returned: TrackedTy, state: CollectorDomain, destination: Option<Place>)
      returns (ok: bool)
      modifies state
      ensures ok <==> ApplyEffect(tcx, body, old(state.View()), destination, Called(call, Some(returned))).Some?
      ensures ok ==> ApplyEffect(tcx, body, old(state.View()), destination, Called(call, Some(returned))) == Some(state.View())
    {
      state.AddCall(call);
      ok := true;
      if destination.Some? {
        ok := state.UpdateWith(tcx, body, destination.value, returned);
      }
    }

    lemma ReturnDoesNotFit(g: PartialFunction, site: Site, destination: Option<Place>, done: set<PartialFunction>, es: seq<CallEffect>,
                           before: Domain, e: CallEffect, w: CallPoint, l: Ledger, u: Universe)
      requires Working(u) && Extended(l, Shared()) && ReachesSite(tcx, l, virtualStack.frames, w, site)
      requires IsCallee(tcx, current, site, w.closures, g) && CalleeOccurs(u, w, site, g)
      requires InCall(w, destination, es, before) && u.stateOccurs(current.instance, before)
      requires OthersDone(tcx, virtualStack.frames, site, w.closures, g, done, es)
      requires ReturnOccurs(tcx, u, g, site, e) && IsEffectOf(tcx, g, site, e) && Justified(tcx, functions.fns, e)
      requires ApplyEffect(tcx, body, before, destination, e).None?
      ensures StoppedAfter(tcx, u, l, Failure(Shared(), virtualStack.frames, w.run, w.block, PassReturn(site, w.closures, g, done, es, before, e)))
    {
      SiteIsStable(tcx, l, Shared(), virtualStack.frames, w, site);
    }

    /** `now` is the state in the middle of the call of the block, after the effects `es`. */
    ghost predicate InCall(w: CallPoint, destination: Option<Place>, es: seq<CallEffect>, now: Domain) {
      && Bottom(tcx, current).Some? && w.block < |body.blocks| == |tcx.bodyOf(current.instance).blocks|
      && destination == Destination(body.blocks[w.block].terminator)
      && BlockEffect(tcx, body, current.instance.args, Entries(SettingOf(tcx, current), w.run.steps)[w.block], w.block, es) == Some(now)
    }

    /** A callee of an unknown kind is recorded as unhandled. */
    method RecordUnhandled(site: Site, state: CollectorDomain, destination: Option<Place>, ghost w: CallPoint, ghost u: Universe)
      returns (ghost es: seq<CallEffect>)
      requires InCall(w, destination, [], state.View())
      requires EffectStays(tcx, u, current, destination, NotHandled(site.functionTy))
      requires u.stateOccurs(current.instance, state.View()) && Initialized()
      modifies state
      ensures es == [NotHandled(site.functionTy)] && InCall(w, destination, es, state.View())
      ensures CallsOf(es) == {} && AllJustified(tcx, functions.fns, es)
      ensures u.stateOccurs(current.instance, state.View())
    {
      ghost var before := state.View();
      state.AddUnhandled(site.functionTy);
      es := [NotHandled(site.functionTy)];
      assert ApplyEffect(tcx, body, before, destination, NotHandled(site.functionTy)) == Some(state.View());
      FirstEffect(w, destination, before, NotHandled(site.functionTy), state.View());
    }

    /** A callee that cannot be resolved is recorded as a call without body. */
    method RecordUnresolved(site: Site, state: CollectorDomain, destination: Option<Place>, ghost w: CallPoint, ghost u: Universe)
      returns (ghost es: seq<CallEffect>)
      requires Working(u) && site.functionTy.head.FnDef? && InCall(w, destination, [], state.View())
      requires EffectStays(tcx, u, current, destination, UnresolvedCall(site))
      requires u.stateOccurs(current.instance, state.View())
      modifies state, functions
      ensures Working(u) && Extended(old(Shared()), Shared())
      ensures es == [UnresolvedCall(site)] && InCall(w, destination, es, state.View())
      ensures InfoWithoutBody(site.functionTy.head.did, site.argTys) in functions.fns
      ensures Resolvable(functions.fns, CallsOf(es)) && AllJustified(tcx, functions.fns, es)
      ensures u.stateOccurs(current.instance, state.View())
    {
      ghost var before := state.View();
      es := [UnresolvedCall(site)];
      var call := WithoutBody(site.functionTy.head.did, site.args);
      StoreWithoutBody(site.functionTy.head.did, site.argTys, call, u);
      state.AddCall(call);
      assert ApplyEffect(tcx, body, before, destination, UnresolvedCall(site)) == Some(state.View());
      FirstEffect(w, destination, before, UnresolvedCall(site), state.View());
    }

    /** Processes the plausible callees in any order, skipping those being analyzed already. */
    method ProcessCallees(callees: set<PartialFunction>, site: Site, state: CollectorDomain,
                          destination: Option<Place>, ghost w: CallPoint, ghost u: Universe)
      returns (ok: bool, ghost es: seq<CallEffect>, ghost x: Failure)
      requires Working(u) && ReachesSite(tcx, Shared(), virtualStack.frames, w, site)
      requires site.functionTy.head.FnDef? && ResolveSite(tcx, current, site, w.closures) == Fine(callees)
      requires SiteOccurs(tcx, u, current, w.block, site) && u.closuresOccur(w.closures)
      requires forall g | g in callees :: CalleeStays(tcx, u, current, site, destination, g)
      requires u.stateOccurs(current.instance, state.View()) && InCall(w, destination, [], state.View())
      modifies state, functions, closures
      ensures ok ==> Working(u) && Extended(old(Shared()), Shared())
      ensures ok ==> CallsDone(callees, site, w, destination, es, state.View(), u)
      ensures ok || StoppedAfter(tcx, u, old(Shared()), x)
      decreases Unvisited(u), 6
    {
      es := [];
      ghost var l := Shared();
      x := Failure(l, [], Recording([], []), 0, StartState);
      var rest := callees;
      while rest != {}
        invariant rest <= callees
        invariant Working(u) && Extended(l, Shared())
        invariant CallsDone(callees - rest, site, w, destination, es, state.View(), u)
      {
        var g :| g in rest;
        assert callees - (rest - {g}) == (callees - rest) + {g};
        ok, es, x := ProcessUnlessSeen(g, site, state, destination, callees - rest, es, w, l, u);
        if !ok {
          return;
        }
        rest := rest - {g};
      }
      assert callees - rest == callees;
      ok := true;
    }

    /** The callees in `done` have been processed, with the effects `es` and the result `now`. */
    ghost predicate CallsDone(done: set<PartialFunction>, site: Site, w: CallPoint, destination: Option<Place>,
                              es: seq<CallEffect>, now: Domain, u: Universe)
      reads virtualStack, functions
    {
      && InCall(w, destination, es, now)
      && AreEffectsOf(tcx, FreshCallees(done, virtualStack.stack), site, es)
      && Resolvable(functions.fns, CallsOf(es)) && AllJustified(tcx, functions.fns, es)
      && u.stateOccurs(current.instance, now)
    }

    /** Skips a callee that is being analyzed already, and processes any other. */
    method ProcessUnlessSeen(g: PartialFunction, site: Site, state: CollectorDomain, destination: Option<Place>,
                             ghost done: set<PartialFunction>, ghost es: seq<CallEffect>, ghost w: CallPoint, ghost l: Ledger,
                             ghost u: Universe)
      returns (ok: bool, ghost es': seq<CallEffect>, ghost x: Failure)
      requires Working(u) && ReachesSite(tcx, l, virtualStack.frames, w, site) && Extended(l, Shared())
      requires IsCallee(tcx, current, site, w.closures, g)
      requires SiteOccurs(tcx, u, current, w.block, site) && u.closuresOccur(w.closures)
      requires CalleeStays(tcx, u, current, site, destination, g)
      requires CallsDone(done, site, w, destination, es, state.View(), u)
      requires done <= ResolveSite(tcx, current, site, w.closures).value - {g}
      modifies state, functions, closures
      ensures ok ==> Working(u) && Extended(l, Shared())
      ensures ok ==> CallsDone(done + {g}, site, w, destination, es', state.View(), u)
      ensures ok || StoppedAfter(tcx, u, l, x)
      decreases Unvisited(u), 5
    {
      es' := es;
      x := Failure(Shared(), [], Recording([], []), 0, StartState);
      if virtualStack.Contains(ItemOf(g)) {
        SkippedCallee(virtualStack.stack, done, g);
        return true, es, x;
      }
      ghost var between, middle := Shared(), state.View();
      SiteIsStable(tcx, l, between, virtualStack.frames, w, site);
      ghost var e;
      ok, e, x := ProcessCallee(g, site, state, destination, done, es, w, u);
      if !ok {
        StoppedEarlier(tcx, u, l, between, x);
        return;
      }
      OneMoreDone(done, g, site, w, destination, es, e, between.fns, middle, state.View(), u);
      es' := es + [e];
    }

    lemma OneMoreDone(done: set<PartialFunction>, g: PartialFunction, site: Site, w: CallPoint, destination: Option<Place>,
                      es: seq<CallEffect>, e: CallEffect, fns: seq<FunctionInfo>, middle: Domain, after: Domain, u: Universe)
      requires ItemOf(g) !in virtualStack.stack && AreEffectsOf(tcx, FreshCallees(done, virtualStack.stack), site, es)
      requires Prefix(fns, functions.fns) && Resolvable(fns, CallsOf(es)) && AllJustified(tcx, fns, es)
      requires InCall(w, destination, es, middle) && ApplyEffect(tcx, body, middle, destination, e) == Some(after)
      requires IsEffectOf(tcx, g, site, e) && Find(functions.fns, e.call).Some? && Justified(tcx, functions.fns, e)
      requires u.stateOccurs(current.instance, after)
      ensures CallsDone(done + {g}, site, w, destination, es + [e], after, u)
    {
      AppendEffect(fns, functions.fns, es, e);
      AppendApplied(w, destination, es, e, middle, after);
      OneMoreCallee(tcx, virtualStack.stack, done, g, site, es, e);
    }

    lemma AppendApplied(w: CallPoint, destination: Option<Place>, es: seq<CallEffect>, e: CallEffect, middle: Domain, after: Domain)
      requires InCall(w, destination, es, middle) && ApplyEffect(tcx, body, middle, destination, e) == Some(after)
      ensures InCall(w, destination, es + [e], after)
    {
      assert (es + [e])[..|es|] == es;
    }

    /** Processes a call site: every plausible callee that is not being analyzed already is
        analyzed, its summary stored and the call recorded. */
    method ProcessCall(site: Site, state: CollectorDomain, destination: Option<Place>, ghost w: CallPoint, ghost u: Universe)
      returns (ok: bool, ghost es: seq<CallEffect>, ghost x: Failure)
      requires Working(u)
      requires ReachesSite(tcx, Shared(), virtualStack.frames, w, site) && w.closures == closures.closures
      requires SiteOccurs(tcx, u, current, w.block, site)
      requires SiteStays(tcx, u, current, site, destination, closures.closures)
      requires u.stateOccurs(current.instance, state.View()) && InCall(w, destination, [], state.View())
      modifies state, functions, closures
      ensures ok ==> Working(u) && Extended(old(Shared()), Shared())
      ensures ok ==> InCall(w, destination, es, state.View())
      ensures ok ==> Accounts(tcx, current, site, old(closures.closures), virtualStack.stack, es)
      ensures ok ==> Resolvable(functions.fns, CallsOf(es)) && AllJustified(tcx, functions.fns, es)
      ensures ok ==> u.stateOccurs(current.instance, state.View())
      ensures ok || StoppedAfter(tcx, u, old(Shared()), x)
      decreases Unvisited(u), 7
    {
      es := [];
      x := Failure(Shared(), virtualStack.frames, w.run, w.block, ResolveCallee(site, w.closures));
      if !site.functionTy.head.FnDef? {
        es := RecordUnhandled(site, state, destination, w, u);
        return true, es, x;
      }
      var resolved := ResolveSite(tcx, current, site, closures.closures);
      match resolved
      case Panics => ok := false;
      case Failed =>
        es := RecordUnresolved(site, state, destination, w, u);
        ok := true;
      case Fine(callees) =>
        if callees == {} {
          es := RecordUnresolved(site, state, destination, w, u);
          ok := true;
        } else {
          ok, es, x := ProcessCallees(callees, site, state, destination, w, u);
        }
    }

    lemma FirstEffect(w: CallPoint, destination: Option<Place>, before: Domain, e: CallEffect, after: Domain)
      requires InCall(w, destination, [], before) && ApplyEffect(tcx, body, before, destination, e) == Some(after)
      ensures InCall(w, destination, [e], after)
      ensures CallsOf([e]) == if e.Called? then {e.call} else {}
    {
      AppendApplied(w, destination, [], e, before, after);
      assert [] + [e] == [e];
    }

    lemma AppendEffect(fns: seq<FunctionInfo>, fns': seq<FunctionInfo>, es: seq<CallEffect>, e: CallEffect)
      requires Prefix(fns, fns') && Resolvable(fns, CallsOf(es)) && AllJustified(tcx, fns, es)
      requires e.Called? && Find(fns', e.call).Some? && Justified(tcx, fns', e)
      ensures CallsOf(es + [e]) == CallsOf(es) + {e.call}
      ensures Resolvable(fns', CallsOf(es + [e])) && AllJustified(tcx, fns', es + [e])
    {
      ResolvableIsStable(fns, fns', CallsOf(es));
      JustifiedIsStable(tcx, fns, fns', es);
      forall x ensures x in es + [e] <==> x in es || x == e {
      }
    }

    /** The transfer of one statement; a closure it creates is entered in the closure storage. */
    method ApplyStatement(stmt: Statement, state: CollectorDomain, ghost u: Universe) returns (ok: bool)
      requires Working(u) && StatementIn(body, stmt)
      requires u.stateOccurs(current.instance, state.View())
      modifies state, closures
      ensures ok ==> Working(u)
      ensures ok ==> StatementEffect(tcx, body, current.instance.args, old(state.View()), stmt) == Some(state.View())
      ensures ok ==> u.stateOccurs(current.instance, state.View())
      ensures ok ==> closures.history == old(closures.history) +
                       match ClosureCreated(tcx, body, old(state.View()), stmt)
                       case None => []
                       case Some((ty, upvars)) => [Event(ty, current.instance.args, upvars)]
      ensures !ok ==> StatementPanics(tcx, current, old(state.View()), stmt, old(closures.closures))
    {
      if stmt.Nop? {
        return true;
      }
      assert FunctionStays(tcx, u, current);
      ghost var l := Shared();
      var created := ClosureCreated(tcx, body, state.View(), stmt);
      if created.Some? {
        assert ClosuresStay(tcx, u, current, closures.closures);
        ok := closures.UpdateWith(created.value.0, current.instance.args, created.value.1);
        if !ok {
          return;
        }
        SaneAfterClosures(tcx, u, l, Shared(), old(closures.closures), closures.closures, virtualStack.frames);
      }
      assert StatementStays(tcx, u, current, stmt);
      var tracked := RvalueTracked(tcx, body, current.instance.args, state.View(), stmt.rvalue);
      if tracked.None? {
        return false;
      }
      ok := state.UpdateWith(tcx, body, stmt.place, tracked.value);
    }

    /** The statements of a block, one after the other. */
    method ApplyStatements(b: nat, state: CollectorDomain, ghost run: Recording, ghost u: Universe)
      returns (ok: bool, ghost x: Failure)
      requires Working(u) && b < |body.blocks|
      requires IsRecordedRun(tcx, Shared(), current, virtualStack.stack, run)
      requires state.View() == Entries(SettingOf(tcx, current), run.steps)[b]
      requires u.stateOccurs(current.instance, state.View())
      modifies state, closures
      ensures ok ==> Working(u) && Extended(old(Shared()), Shared())
      ensures ok ==> var stmts := body.blocks[b].statements;
                     && AfterStatements(tcx, body, current.instance.args, old(state.View()), stmts) == Some(state.View())
                     && CapturesRecorded(tcx, closures.history, current, old(state.View()), stmts, |stmts|)
      ensures ok ==> u.stateOccurs(current.instance, state.View())
      ensures ok || StoppedAfter(tcx, u, old(Shared()), x)
    {
      ghost var l, before := Shared(), state.View();
      x := Failure(l, [], run, b, StartState);
      var stmts := body.blocks[b].statements;
      for i := 0 to |stmts|
        invariant Working(u) && Extended(l, Shared())
        invariant AfterStatements(tcx, body, current.instance.args, before, stmts[..i]) == Some(state.View())
        invariant CapturesRecorded(tcx, closures.history, current, before, stmts, i)
        invariant u.stateOccurs(current.instance, state.View())
      {
        AfterOneMore(tcx, body, current.instance.args, before, stmts, i);
        ok, x := ApplyNth(b, i, state, run, l, u);
        if !ok {
          return;
        }
      }
      assert stmts[..|stmts|] == stmts;
      ok := true;
    }

    /** Statement `k` of block `b`. */
    method ApplyNth(b: nat, k: nat, state: CollectorDomain, ghost run: Recording, ghost l: Ledger, ghost u: Universe)
      returns (ok: bool, ghost x: Failure)
      requires Working(u) && Extended(l, Shared()) && IsRecordedRun(tcx, l, current, virtualStack.stack, run)
      requires b < |body.blocks| && k < |body.blocks[b].statements| && u.stateOccurs(current.instance, state.View())
      requires AfterStatements(tcx, body, current.instance.args, Entries(SettingOf(tcx, current), run.steps)[b],
                               body.blocks[b].statements[..k]) == Some(state.View())
      modifies state, closures
      ensures ok ==> Working(u) && Extended(l, Shared()) && old(closures.history) <= closures.history
      ensures ok ==> var stmt := body.blocks[b].statements[k];
                     && StatementEffect(tcx, body, current.instance.args, old(state.View()), stmt) == Some(state.View())
                     && match ClosureCreated(tcx, body, old(state.View()), stmt)
                        case None => true
                        case Some((ty, upvars)) => Event(ty, current.instance.args, upvars) in closures.history
      ensures ok ==> u.stateOccurs(current.instance, state.View())
      ensures ok || StoppedAfter(tcx, u, l, x)
    {
      x := Failure(Shared(), virtualStack.frames, run, b, RunStatement(k, state.View(), closures.closures));
      StatementIsReached(b, k, state.View(), run, l, u);
      ok := ApplyStatement(body.blocks[b].statements[k], state, u);
    }

    /** The present analysis is at statement `k` of block `b`; if that panics, it stops here. */
    lemma StatementIsReached(b: nat, k: nat, d: Domain, run: Recording, l: Ledger, u: Universe)
      requires Working(u) && Extended(l, Shared()) && IsRecordedRun(tcx, l, current, virtualStack.stack, run)
      requires b < |body.blocks| && k < |body.blocks[b].statements| && u.stateOccurs(current.instance, d)
      requires AfterStatements(tcx, body, current.instance.args, Entries(SettingOf(tcx, current), run.steps)[b],
                               body.blocks[b].statements[..k]) == Some(d)
      ensures StatementPanics(tcx, current, d, body.blocks[b].statements[k], closures.closures) ==>
                StoppedAfter(tcx, u, l, Failure(Shared(), virtualStack.frames, run, b, RunStatement(k, d, closures.closures)))
    {
      RecordedIsStable(tcx, l, Shared(), current, virtualStack.stack, run);
      NowIsSnapshot();
    }

    /** The transfer of a block: its statements, then its call. */
    method ApplyBlock(b: nat, state: CollectorDomain, ghost run: Recording, ghost u: Universe)
      returns (ok: bool, ghost s: Step, ghost snapshot: Closures, ghost x: Failure)
      requires Working(u) && b < |body.blocks|
      requires IsRecordedRun(tcx, Shared(), current, virtualStack.stack, run)
      requires state.View() == Entries(SettingOf(tcx, current), run.steps)[b]
      requires u.stateOccurs(current.instance, state.View()) && Resolvable(functions.fns, state.calls)
      modifies state, functions, closures
      ensures ok ==> Working(u) && Extended(old(Shared()), Shared())
      ensures ok ==> s == Step(b, old(state.View()), s.effects, state.View())
      ensures ok ==> BlockEffect(tcx, body, current.instance.args, s.input, b, s.effects) == Some(s.output)
      ensures ok ==> StepRecorded(tcx, Shared(), current, virtualStack.stack, s, snapshot)
      ensures ok ==> u.stateOccurs(current.instance, state.View()) && Resolvable(functions.fns, state.calls)
      ensures ok || StoppedAfter(tcx, u, old(Shared()), x)
      decreases Unvisited(u), 8
    {
      ghost var l, before := Shared(), state.View();
      s := Step(b, before, [], before);
      snapshot := closures.closures;
      ok, x := ApplyStatements(b, state, run, u);
      if !ok {
        return;
      }
      ghost var l', middle := Shared(), state.View();
      StatementsInflateCalls(before, body.blocks[b].statements);
      snapshot := closures.closures;
      NowIsSnapshot();
      ghost var es: seq<CallEffect> := [];
      var site := CallSite(tcx, current, body, state.View(), body.blocks[b].terminator);
      if site.Some? {
        RecordedIsStable(tcx, l, l', current, virtualStack.stack, run);
        SiteIsMet(b, middle, u);
        ok, es, x := ProcessCall(site.value, state, Destination(body.blocks[b].terminator), CallPoint(run, b, snapshot), u);
        if !ok {
          StoppedEarlier(tcx, u, l, l', x);
          return;
        }
      }
      s := Step(b, before, es, state.View());
      SnapshotIsStable(l'.history, closures.history, snapshot);
      EffectsInflate(tcx, body, middle, Destination(body.blocks[b].terminator), es);
      ResolvableIsStable(l.fns, functions.fns, middle.calls);
    }

    /** A call site met in a state that occurs stays in the universe. */
    lemma SiteIsMet(b: nat, d: Domain, u: Universe)
      requires Initialized() && InUniverse(u) && u.closuresOccur(closures.closures) && b < |body.blocks|
      requires u.stateOccurs(current.instance, d) && CallSite(tcx, current, body, d, body.blocks[b].terminator).Some?
      ensures var site := CallSite(tcx, current, body, d, body.blocks[b].terminator).value;
              && SiteOccurs(tcx, u, current, b, site)
              && SiteStays(tcx, u, current, site, Destination(body.blocks[b].terminator), closures.closures)
    {
      assert FunctionStays(tcx, u, current);
      assert TerminatorStays(tcx, u, current, body.blocks[b].terminator);
    }

    lemma NowIsSnapshot()
      requires closures.Valid()
      ensures IsSnapshot(closures.history, closures.closures)
    {
      assert closures.history[..|closures.history|] == closures.history;
    }

    /** Statements record no calls. */
    lemma {:induction false} StatementsInflateCalls(d: Domain, stmts: seq<Statement>)
      requires AfterStatements(tcx, body, current.instance.args, d, stmts).Some?
      ensures AfterStatements(tcx, body, current.instance.args, d, stmts).value.calls == d.calls
      decreases |stmts|
    {
      if stmts != [] {
        StatementsInflateCalls(StatementEffect(tcx, body, current.instance.args, d, stmts[0]).value, stmts[1..]);
      }
    }

    /** All states occur, and the calls they hold can be looked up. */
    ghost predicate Sound(u: Universe, ds: seq<Domain>)
      reads functions
    {
      forall b | 0 <= b < |ds| :: u.stateOccurs(current.instance, ds[b]) && Resolvable(functions.fns, ds[b].calls)
    }

    lemma SoundIsStable(u: Universe, fns: seq<FunctionInfo>, ds: seq<Domain>)
      requires Prefix(fns, functions.fns)
      requires forall b | 0 <= b < |ds| :: u.stateOccurs(current.instance, ds[b]) && Resolvable(fns, ds[b].calls)
      ensures Sound(u, ds)
    {
      forall b | 0 <= b < |ds| ensures Resolvable(functions.fns, ds[b].calls) {
        ResolvableIsStable(fns, functions.fns, ds[b].calls);
      }
    }

    /** The states of the current function stay in the universe. */
    ghost predicate InUniverse(u: Universe) {
      ClosedUniverse(tcx, u) && u.occurs(current)
    }

    /** Joins an output into one entry state. */
    method JoinEntry(entry: Domain, output: Domain, ghost u: Universe) returns (joined: Domain, changed: bool)
      requires InUniverse(u)
      requires u.stateOccurs(current.instance, entry) && Resolvable(functions.fns, entry.calls)
      requires u.stateOccurs(current.instance, output) && Resolvable(functions.fns, output.calls)
      ensures joined == JoinDomains(entry, output)
      ensures u.stateOccurs(current.instance, joined) && Resolvable(functions.fns, joined.calls)
      ensures Facts(joined) <= u.facts(current.instance)
      ensures SameShape(entry, output) && Leq(output, joined)
      ensures changed <==> !Leq(output, entry)
      ensures !changed ==> joined == entry
    {
      OccurringStates(u, entry, output);
      var state := new CollectorDomain(entry);
      changed := state.JoinWith(output);
      joined := state.View();
    }

    /** Joins an output into the entry state of `t`. */
    method JoinTarget(entries: seq<Domain>, t: nat, output: Domain, ghost u: Universe)
      returns (entries': seq<Domain>, changed: bool)
      requires InUniverse(u) && Sound(u, entries) && Sound(u, [output]) && t < |entries|
      ensures entries' == entries[t := JoinDomains(entries[t], output)]
      ensures Sound(u, entries')
      ensures Progress(|entries|, entries, entries', u.facts(current.instance), changed)
      ensures !changed ==> entries' == entries
    {
      assert u.stateOccurs(current.instance, [output][0]);
      var joined;
      joined, changed := JoinEntry(entries[t], output, u);
      if changed {
        EntryGrows(entries, t, output, u.facts(current.instance));
      } else {
        assert entries[t := joined] == entries;
      }
      entries' := entries[t := joined];
    }

    /** `targets` have received the output, and those of them that changed are scheduled. */
    ghost predicate Delivered(entries: seq<Domain>, entries': seq<Domain>, work: set<nat>, work': set<nat>,
                              targets: set<nat>, output: Domain)
    {
      && entries' == JoinIntoSuccessors(entries, targets, output)
      && work <= work' <= work + targets
      && forall b | 0 <= b < |entries| && b !in work' :: entries'[b] == entries[b]
    }

    lemma DeliverOneMore(entries: seq<Domain>, between: seq<Domain>, work: set<nat>, work': set<nat>, targets: set<nat>,
                         output: Domain, t: nat, changed: bool)
      requires Delivered(entries, between, work, work', targets, output) && t !in targets && t < |entries|
      requires !changed ==> between[t := JoinDomains(between[t], output)] == between
      ensures Delivered(entries, between[t := JoinDomains(between[t], output)], work, if changed then work' + {t} else work',
                        targets + {t}, output)
    {
      var entries' := between[t := JoinDomains(between[t], output)];
      assert entries' == JoinIntoSuccessors(entries, targets + {t}, output);
      if !changed {
        assert entries'[t] == between[t];
      }
    }

    /** Joins the output into `t` and schedules it if it changed; `first` and `firstWork` are from before all of that. */
    method JoinOneMore(t: nat, entries: seq<Domain>, work: set<nat>, output: Domain, ghost first: seq<Domain>, ghost firstWork: set<nat>,
                       ghost done: set<nat>, ghost u: Universe)
      returns (entries': seq<Domain>, work': set<nat>)
      requires t < |entries| == |first| && t !in done
      requires InUniverse(u) && Sound(u, entries) && Sound(u, [output])
      requires Delivered(first, entries, firstWork, work, done, output)
      requires Progress(|first|, first, entries, u.facts(current.instance), work != firstWork)
      ensures |entries'| == |first| && Sound(u, entries')
      ensures Delivered(first, entries', firstWork, work', done + {t}, output)
      ensures Progress(|first|, first, entries', u.facts(current.instance), work' != firstWork)
    {
      var changed;
      entries', changed := JoinTarget(entries, t, output, u);
      ProgressAdds(|first|, first, entries, entries', u.facts(current.instance), work != firstWork, changed);
      DeliverOneMore(first, entries, firstWork, work, done, output, t, changed);
      work' := if changed then work + {t} else work;
      ScheduledOrNot(t, work, work', firstWork, changed, first, entries', u);
    }

    /** Scheduling a block that changed makes the work list differ from the first one, unless it was on it. */
    lemma ScheduledOrNot(t: nat, work: set<nat>, work': set<nat>, firstWork: set<nat>, changed: bool,
                         first: seq<Domain>, entries': seq<Domain>, u: Universe)
      requires work' == if changed then work + {t} else work
      requires firstWork <= work
      requires Progress(|first|, first, entries', u.facts(current.instance), work != firstWork || changed)
      ensures Progress(|first|, first, entries', u.facts(current.instance), work' != firstWork)
    {
    }

    /** Joins a block's output into its successors and schedules those that changed. */
    method JoinIntoAll(entries: seq<Domain>, work: set<nat>, targets: set<nat>, output: Domain, ghost u: Universe)
      returns (entries': seq<Domain>, work': set<nat>)
      requires forall t | t in targets :: t < |entries|
      requires InUniverse(u) && Sound(u, entries) && Sound(u, [output])
      ensures Delivered(entries, entries', work, work', targets, output)
      ensures Sound(u, entries')
      ensures Progress(|entries|, entries, entries', u.facts(current.instance), work' != work)
    {
      entries', work' := entries, work;
      var rest := targets;
      assert entries == JoinIntoSuccessors(entries, {}, output);
      while rest != {}
        invariant rest <= targets && |entries'| == |entries|
        invariant Delivered(entries, entries', work, work', targets - rest, output)
        invariant Sound(u, entries')
        invariant Progress(|entries|, entries, entries', u.facts(current.instance), work' != work)
      {
        var t :| t in rest;
        assert targets - (rest - {t}) == (targets - rest) + {t};
        entries', work' := JoinOneMore(t, entries', work', output, entries, work, targets - rest, u);
        rest := rest - {t};
      }
      assert targets - rest == targets;
    }

    /** Occurring states have one shape, and their join occurs and is an upper bound. */
    lemma OccurringStates(u: Universe, a: Domain, b: Domain)
      requires ClosedUniverse(tcx, u) && u.occurs(current)
      requires u.stateOccurs(current.instance, a) && u.stateOccurs(current.instance, b)
      ensures SameShape(a, b) && u.stateOccurs(current.instance, JoinDomains(a, b))
      ensures Facts(JoinDomains(a, b)) <= u.facts(current.instance)
      ensures Leq(a, JoinDomains(a, b)) && Leq(b, JoinDomains(a, b))
      ensures Leq(b, a) ==> JoinDomains(a, b) == a
    {
      assert FunctionStays(tcx, u, current);
      assert SameShape(a, b);
      JoinIsLeastUpperBound(a, b);
    }

    /** The engine between two steps: the entries are those the recorded transfers lead to, and
        what is not scheduled is settled. */
    ghost predicate Engine(entries: seq<Domain>, work: set<nat>, trace: seq<Step>)
      requires Bottom(tcx, current).Some?
    {
      var e := SettingOf(tcx, current);
      && WellFormedBody(e.body)
      && |entries| == |e.body.blocks| && entries == Entries(e, trace)
      && IsRun(e, trace)
      && work <= e.body.reachable
      && forall b | b in e.body.reachable && b !in work :: Settled(e, trace, b)
    }

    /** One round of the engine on a scheduled block. */
    method EngineStep(b: nat, entries: seq<Domain>, work: set<nat>, ghost run: Recording, ghost first: Ledger, ghost u: Universe)
      returns (ok: bool, entries': seq<Domain>, work': set<nat>, ghost run': Recording, ghost x: Failure)
      requires Working(u) && IsRecordedRun(tcx, Shared(), current, virtualStack.stack, run)
      requires Engine(entries, work, run.steps) && Sound(u, entries) && b in work && Extended(first, Shared())
      modifies functions, closures
      ensures ok ==> Working(u) && Extended(first, Shared())
      ensures ok ==> IsRecordedRun(tcx, Shared(), current, virtualStack.stack, run')
      ensures ok ==> Engine(entries', work', run'.steps) && Sound(u, entries')
      ensures ok ==> work - {b} <= work'
      ensures ok ==> Progress(|body.blocks|, entries, entries', u.facts(current.instance), work' != work - {b})
      ensures ok || StoppedAfter(tcx, u, first, x)
      decreases Unvisited(u), 9
    {
      entries', work', run' := entries, work, run;
      ghost var e, l := SettingOf(tcx, current), Shared();
      var state := new CollectorDomain(entries[b]);
      ghost var s, snapshot;
      ok, s, snapshot, x := ApplyBlock(b, state, run, u);
      if !ok {
        StoppedEarlier(tcx, u, first, l, x);
        return;
      }
      SoundIsStable(u, l.fns, entries);
      var output := state.View();
      EntriesGrow(u, entries, body.blocks[b].successors, output);
      entries', work' := JoinIntoAll(entries, work - {b}, body.blocks[b].successors, output, u);
      ExtendRun(e, run.steps, s);
      SettledOutside(e, run.steps, s, entries, entries', work, work');
      RecordedIsStable(tcx, l, Shared(), current, virtualStack.stack, run);
      RecordOneMore(tcx, Shared(), current, virtualStack.stack, run, s, snapshot);
      run' := OneMore(run, s, snapshot);
    }

    /** The worklist engine: picks any scheduled block until none is left. */
    method IterateToFixpoint(bottom: Domain, ghost u: Universe)
      returns (ok: bool, entries: seq<Domain>, ghost run: Recording, ghost x: Failure)
      requires Working(u) && Bottom(tcx, current) == Some(bottom)
      requires Resolvable(functions.fns, bottom.calls)
      modifies functions, closures
      ensures ok ==> Working(u) && Extended(old(Shared()), Shared())
      ensures ok ==> IsRecordedRun(tcx, Shared(), current, virtualStack.stack, run)
      ensures ok ==> IsFixpoint(SettingOf(tcx, current), run.steps)
      ensures ok ==> entries == Entries(SettingOf(tcx, current), run.steps) && Sound(u, entries)
      ensures ok || StoppedAfter(tcx, u, old(Shared()), x)
      decreases Unvisited(u), 10
    {
      assert FunctionStays(tcx, u, current);
      entries, run := seq(|body.blocks|, _ => bottom), Recording([], []);
      ghost var l := Shared();
      x := Failure(l, [], run, 0, StartState);
      var work := body.reachable;
      while work != {}
        invariant Working(u) && Extended(l, Shared())
        invariant IsRecordedRun(tcx, Shared(), current, virtualStack.stack, run)
        invariant Engine(entries, work, run.steps) && Sound(u, entries)
        decreases Knowable(|body.blocks|, u.facts(current.instance)) - Known(entries), work
      {
        var b :| b in work;
        ok, entries, work, run, x := EngineStep(b, entries, work, run, l, u);
        if !ok {
          return;
        }
      }
      ok := true;
    }

    /** Joining an output into successors loses nothing, and delivers it to all of them. */
    lemma EntriesGrow(u: Universe, entries: seq<Domain>, targets: set<nat>, output: Domain)
      requires InUniverse(u) && Sound(u, entries) && Sound(u, [output])
      ensures var entries' := JoinIntoSuccessors(entries, targets, output);
              && (forall b | 0 <= b < |entries'| :: Leq(entries[b], entries'[b]))
              && (forall t | t in targets && t < |entries'| :: Leq(output, entries'[t]))
    {
      assert u.stateOccurs(current.instance, [output][0]);
      forall b | 0 <= b < |entries|
        ensures Leq(entries[b], entries[b])
        ensures Leq(entries[b], JoinDomains(entries[b], output)) && Leq(output, JoinDomains(entries[b], output))
      {
        OccurringStates(u, entries[b], output);
      }
    }

    /** Applies every block's transfer to its final entry state and joins the results. */
    method JoinBlockEnds(entries: seq<Domain>, ghost run: Recording, ghost u: Universe)
      returns (ok: bool, results: Domain, ghost ends: Recording, ghost x: Failure)
      requires Working(u) && IsRecordedRun(tcx, Shared(), current, virtualStack.stack, run)
      requires entries == Entries(SettingOf(tcx, current), run.steps) && entries != [] && Sound(u, entries)
      modifies functions, closures
      ensures ok ==> Working(u) && Extended(old(Shared()), Shared())
      ensures ok ==> EndsOk(Shared(), entries, ends) && |ends.steps| == |entries|
      ensures ok ==> results == JoinAll(ends.steps) && Sound(u, [results])
      ensures ok || StoppedAfter(tcx, u, old(Shared()), x)
      decreases Unvisited(u), 11
    {
      ghost var l := Shared();
      ends := Recording([], []);
      results := entries[0];
      x := Failure(l, [], run, 0, StartState);
      var b := 0;
      while b < |entries|
        invariant b <= |entries| && |ends.steps| == b
        invariant Working(u) && Extended(l, Shared())
        invariant Sound(u, entries) && Sound(u, [results])
        invariant EndsOk(Shared(), entries, ends)
        invariant b > 0 ==> results == JoinAll(ends.steps)
      {
        ghost var between := Shared();
        RecordedIsStable(tcx, l, between, current, virtualStack.stack, run);
        ok, results, ends, x := JoinBlockEnd(b, results, entries, run, ends, u);
        if !ok {
          StoppedEarlier(tcx, u, l, between, x);
          return;
        }
        b := b + 1;
      }
      ok := true;
    }

    /** Runs the body from `bottom` to a fixpoint and summarizes it. */
    method RunBody(bottom: Domain, ghost u: Universe) returns (ok: bool, results: Domain, ghost c: Certificate, ghost x: Failure)
      requires Working(u) && Bottom(tcx, current) == Some(bottom)
      requires TypesRecorded(tcx, closures.history, current)
      modifies functions, closures
      ensures ok ==> Working(u) && Extended(old(Shared()), Shared())
      ensures ok ==> CertifiedBy(tcx, Shared(), current.instance, results, c) && c.chain == virtualStack.frames
      ensures ok ==> Sound(u, [results])
      ensures ok || StoppedAfter(tcx, u, old(Shared()), x)
      decreases Unvisited(u), 12
    {
      BottomHasNoCalls();
      results, c := bottom, Certificate([], Recording([], []), Recording([], []));
      var entries;
      ghost var run, ends;
      ghost var first := Shared();
      ok, entries, run, x := IterateToFixpoint(bottom, u);
      if !ok {
        return;
      }
      ghost var l := Shared();
      ok, results, ends, x := JoinBlockEnds(entries, run, u);
      if !ok {
        StoppedEarlier(tcx, u, first, l, x);
        return;
      }
      RecordedIsStable(tcx, l, Shared(), current, virtualStack.stack, run);
      EndsCertify(Shared(), run, ends);
      c := Certificate(virtualStack.frames, run, ends);
    }

    /** Moves to the end of block `b` and joins what holds there into the accumulator. */
    method JoinBlockEnd(b: nat, acc: Domain, entries: seq<Domain>, ghost run: Recording, ghost ends: Recording, ghost u: Universe)
      returns (ok: bool, acc': Domain, ghost ends': Recording, ghost x: Failure)
      requires Working(u) && IsRecordedRun(tcx, Shared(), current, virtualStack.stack, run)
      requires entries == Entries(SettingOf(tcx, current), run.steps) && b < |entries| && |ends.steps| == b
      requires Sound(u, entries) && Sound(u, [acc])
      requires EndsOk(Shared(), entries, ends)
      requires b > 0 ==> acc == JoinAll(ends.steps)
      modifies functions, closures
      ensures ok ==> Working(u) && Extended(old(Shared()), Shared())
      ensures ok ==> Sound(u, entries) && Sound(u, [acc'])
      ensures ok ==> EndsOk(Shared(), entries, ends')
      ensures ok ==> |ends'.steps| == b + 1 && acc' == JoinAll(ends'.steps)
      ensures ok || StoppedAfter(tcx, u, old(Shared()), x)
      decreases Unvisited(u), 10
    {
      assert u.stateOccurs(current.instance, [acc][0]) && Resolvable(functions.fns, [acc][0].calls);
      ok, acc', ends', x := EndBlock(b, acc, entries, run, ends, u);
      if ok && b > 0 {
        assert ends'.steps[..b] == ends.steps;
        var changed;
        acc', changed := JoinEntry(acc, acc', u);
      }
    }

    /** The transfer of block `b`, recorded as its end. */
    method EndBlock(b: nat, ghost acc: Domain, entries: seq<Domain>, ghost run: Recording, ghost ends: Recording, ghost u: Universe)
      returns (ok: bool, output: Domain, ghost ends': Recording, ghost x: Failure)
      requires Working(u) && IsRecordedRun(tcx, Shared(), current, virtualStack.stack, run)
      requires entries == Entries(SettingOf(tcx, current), run.steps) && b < |entries| && |ends.steps| == b
      requires Sound(u, entries) && EndsOk(Shared(), entries, ends)
      requires u.stateOccurs(current.instance, acc) && Resolvable(functions.fns, acc.calls)
      modifies functions, closures
      ensures ok ==> Working(u) && Extended(old(Shared()), Shared())
      ensures ok ==> EndsOk(Shared(), entries, ends') && |ends'.steps| == b + 1
      ensures ok ==> ends'.steps[..b] == ends.steps && ends'.steps[b].output == output
      ensures ok ==> Sound(u, entries) && Resolvable(functions.fns, acc.calls)
      ensures ok ==> u.stateOccurs(current.instance, output) && Resolvable(functions.fns, output.calls)
      ensures ok || StoppedAfter(tcx, u, old(Shared()), x)
      decreases Unvisited(u), 9
    {
      output, ends' := entries[b], ends;
      var state := new CollectorDomain(entries[b]);
      ghost var l := Shared();
      ghost var s, snapshot;
      ok, s, snapshot, x := ApplyBlock(b, state, run, u);
      if !ok {
        return;
      }
      EndsStayOk(l, entries, ends, acc, u);
      MoreEnds(Shared(), entries, ends, s, snapshot);
      ends', output := OneMore(ends, s, snapshot), state.View();
    }

    lemma EndsStayOk(l: Ledger, entries: seq<Domain>, ends: Recording, acc: Domain, u: Universe)
      requires Extended(l, Shared()) && EndsOk(l, entries, ends)
      requires forall b | 0 <= b < |entries| :: u.stateOccurs(current.instance, entries[b]) && Resolvable(l.fns, entries[b].calls)
      requires u.stateOccurs(current.instance, acc) && Resolvable(l.fns, acc.calls)
      ensures EndsOk(Shared(), entries, ends) && Sound(u, entries) && Sound(u, [acc])
    {
      SoundIsStable(u, l.fns, entries);
      SoundIsStable(u, l.fns, [acc]);
      RecordedIsStable(tcx, l, Shared(), current, virtualStack.stack, ends);
    }

    /** Block end `k` as it is recorded. */
    ghost predicate IsEnd(input: Domain, k: nat, s: Step) {
      && s.block == k < |body.blocks| && s.input == input
      && BlockEffect(tcx, body, current.instance.args, s.input, k, s.effects) == Some(s.output)
    }

    ghost predicate EndsOk(l: Ledger, entries: seq<Domain>, ends: Recording)
      reads virtualStack
    {
      && |ends.steps| <= |entries|
      && AllRecorded(tcx, l, current, virtualStack.stack, ends)
      && forall k {:trigger ends.steps[k]} | 0 <= k < |ends.steps| :: IsEnd(entries[k], k, ends.steps[k])
    }

    lemma MoreEnds(l: Ledger, entries: seq<Domain>, ends: Recording, s: Step, snapshot: Closures)
      requires EndsOk(l, entries, ends) && |ends.steps| < |entries|
      requires IsEnd(entries[|ends.steps|], |ends.steps|, s) && StepRecorded(tcx, l, current, virtualStack.stack, s, snapshot)
      ensures EndsOk(l, entries, OneMore(ends, s, snapshot))
    {
      RecordOneMore(tcx, l, current, virtualStack.stack, ends, s, snapshot);
    }

    lemma EndsCertify(l: Ledger, run: Recording, ends: Recording)
      requires Initialized() && virtualStack.Valid()
      requires virtualStack.frames != [] && Last(virtualStack.frames) == current && IsChain(tcx, l, virtualStack.frames)
      requires TypesRecorded(tcx, l.history, current)
      requires IsRecordedRun(tcx, l, current, virtualStack.stack, run)
      requires IsFixpoint(SettingOf(tcx, current), run.steps)
      requires EndsOk(l, Entries(SettingOf(tcx, current), run.steps), ends) && |ends.steps| == |body.blocks|
      ensures CertifiedBy(tcx, l, current.instance, JoinAll(ends.steps), Certificate(virtualStack.frames, run, ends))
    {
      var e := SettingOf(tcx, current);
      forall b | 0 <= b < |ends.steps|
        ensures ValidStep(e, ends.steps[b]) && ends.steps[b].block == b && ends.steps[b].input == Entries(e, run.steps)[b]
      {
        assert IsEnd(Entries(e, run.steps)[b], b, ends.steps[b]);
      }
    }

    /** Enters every closure type of the body in the closure storage; without captures that always works. */
    method CollectClosures(ghost u: Universe)
      requires Working(u)
      modifies closures
      ensures Working(u) && Extended(old(Shared()), Shared())
      ensures TypesRecorded(tcx, closures.history, current)
    {
      for i := 0 to |body.types|
        invariant Working(u) && Extended(old(Shared()), Shared())
        invariant forall k | 0 <= k < i :: Event(body.types[k], current.instance.args, []) in closures.history
      {
        assert FunctionStays(tcx, u, current);
        assert ClosuresStay(tcx, u, current, closures.closures);
        assert ClosureUpdateStays(u, closures.closures, body.types[i], current.instance.args, []);
        ghost var l, before := Shared(), closures.closures;
        var entered := closures.UpdateWith(body.types[i], current.instance.args, []);
        assert entered;
        SaneAfterClosures(tcx, u, l, Shared(), before, closures.closures, virtualStack.frames);
      }
    }

    method BottomValue() returns (ok: bool, bottom: Domain)
      requires Initialized()
      ensures ok <==> Bottom(tcx, current).Some?
      ensures ok ==> Bottom(tcx, current) == Some(bottom)
    {
      var tracker := new CollectorDomain(Domain(DeclaredPlaces(tcx, body), {}, {}));
      bottom := tracker.View();
      if current.ClosureFunction? {
        ok := tracker.AugmentClosureWithUpvars(tcx, body, current.info.upvars);
        if !ok {
          return;
        }
      }
      ok := tracker.AugmentWithArgs(tcx, body, current.trackedArgs, tcx.isClosure(current.instance.did));
      bottom := tracker.View();
    }

    /** Analyzes the current function: a stored summary is reused, otherwise its body is run to a
        fixpoint and the block ends are joined. The summary is certified by `c`, which without reuse
        is the analysis of the current function with exactly the functions on the stack above it. */
    method Run(ghost u: Universe) returns (ok: bool, results: Domain, ghost c: Certificate, ghost x: Failure)
      requires Ready(u)
      modifies virtualStack, functions, closures
      ensures ok ==> Working(u) && virtualStack.frames == old(virtualStack.frames) + [current]
      ensures ok ==> Extended(old(Shared()), Shared())
      ensures ok ==> Certifies(tcx, u, Shared(), virtualStack.frames, StoredDepth(old(virtualStack.frames)),
                               current.instance, results, c)
      ensures ok ==> Resolvable(functions.fns, results.calls)
      ensures ok ==> var memo := FindInstance(old(functions.fns), current.instance);
                     if memo.Some? then results == DomainOf(old(functions.fns)[memo.value])
                     else c.chain == virtualStack.frames
      ensures ok || StoppedAfter(tcx, u, old(Shared()), x)
      decreases Unvisited(u), 0
    {
      c, x := Certificate([], Recording([], []), Recording([], [])), Failure(Shared(), [], Recording([], []), 0, StartState);
      Enter(u);
      var memo := functions.GetWithBody(current.instance);
      if memo.Some? {
        results := DomainOf(memo.value);
        c := CertificateOf(tcx, u, Shared(), virtualStack.frames, FindInstance(functions.fns, current.instance).value);
        return true, results, c, x;
      }
      ok, results, c, x := RunFresh(u);
    }

    /** The present analysis comes on top of the stack. */
    method Enter(ghost u: Universe)
      requires Ready(u)
      modifies virtualStack
      ensures Working(u) && virtualStack.frames == old(virtualStack.frames) + [current]
      ensures Unvisited(u) == old(Unvisited(u)) - {ItemOf(current)}
      ensures ItemOf(current) in old(Unvisited(u))
    {
      assert FunctionStays(tcx, u, current);
      SaneAfterEntering(tcx, u, Shared(), closures.closures, virtualStack.frames, current);
      virtualStack.Push(ItemOf(current), current);
    }

    /** Analyzes the current function, of which no summary is stored. */
    method RunFresh(ghost u: Universe) returns (ok: bool, results: Domain, ghost c: Certificate, ghost x: Failure)
      requires Working(u)
      modifies functions, closures
      ensures ok ==> Working(u) && Extended(old(Shared()), Shared())
      ensures ok ==> Evident(tcx, u, Shared(), virtualStack.frames, current.instance, results, c)
      ensures ok ==> c.chain == virtualStack.frames
      ensures ok ==> u.stateOccurs(current.instance, results) && Resolvable(functions.fns, results.calls)
      ensures ok || StoppedAfter(tcx, u, old(Shared()), x)
      decreases Unvisited(u), 13
    {
      assert FunctionStays(tcx, u, current);
      c := Certificate([], Recording([], []), Recording([], []));
      ghost var l := Shared();
      x := Failure(l, virtualStack.frames, Recording([], []), 0, StartState);
      var bottom;
      ok, bottom := BottomValue();
      results := bottom;
      if !ok {
        return;
      }
      CollectClosures(u);
      ghost var l' := Shared();
      ok, results, c, x := RunBody(bottom, u);
      if !ok {
        StoppedEarlier(tcx, u, l, l', x);
      } else {
        assert u.stateOccurs(current.instance, [results][0]) && Resolvable(functions.fns, [results][0].calls);
        OwnCertificate(u, results, c);
      }
    }

    /** Everything on the chain of the present analysis is live. */
    lemma OwnCertificate(u: Universe, results: Domain, c: Certificate)
      requires Working(u) && CertifiedBy(tcx, Shared(), current.instance, results, c) && c.chain == virtualStack.frames
      ensures Evident(tcx, u, Shared(), virtualStack.frames, current.instance, results, c)
    {
    }

    lemma {:induction false} AugmentArgsKeepsCalls(d: Domain, args: seq<TrackedTy>, i: nat)
      requires AugmentArgs(tcx, body, d, args, i).Some?
      ensures AugmentArgs(tcx, body, d, args, i).value.calls == d.calls
      decreases |args| - i
    {
      if i < |args| {
        AugmentArgsKeepsCalls(Augment(tcx, body, d, Place(i + 1, []), args[i]).value, args, i + 1);
      }
    }

    lemma {:induction false} AugmentUpvarsKeepsCalls(d: Domain, upvars: seq<TrackedTy>, i: nat)
      requires AugmentUpvars(tcx, body, d, upvars, i).Some?
      ensures AugmentUpvars(tcx, body, d, upvars, i).value.calls == d.calls
      decreases |upvars| - i
    {
      if i < |upvars| {
        AugmentUpvarsKeepsCalls(Augment(tcx, body, d, UpvarPlace(tcx, body, i), upvars[i]).value, upvars, i + 1);
      }
    }

    lemma BottomHasNoCalls()
      requires Initialized() && Bottom(tcx, current).Some?
      ensures Bottom(tcx, current).value.calls == {}
    {
      var d := Domain(DeclaredPlaces(tcx, body), {}, {});
      if current.ClosureFunction? {
        AugmentUpvarsKeepsCalls(d, current.info.upvars, 0);
        d := AugmentUpvars(tcx, body, d, current.info.upvars, 0).value;
      }
      AugmentArgsKeepsCalls(d, current.trackedArgs, if tcx.isClosure(current.instance.did) then 1 else 0);
    }
  }

  /** The origin's lookup gives the summary stored last, unless there was one before. */
  lemma LookupAfterInsert(fns: seq<FunctionInfo>, info: FunctionInfo)
    requires info.InfoWithBody?
    ensures var fns' := Inserted(fns, info);
            var before := Lookup(fns, info.instance);
            Lookup(fns', info.instance) == if before.Some? then before else Some(info)
  {
    var fns' := Inserted(fns, info);
    InsertedAnswers(fns, info, WithBody(info.instance, []));
    if FindInstance(fns, info.instance).Some? {
      FindIsStable(fns, fns', WithBody(info.instance, []));
    } else {
      var k := FindInstance(fns', info.instance).value;
      assert forall j | 0 <= j < |fns| :: !Answers(fns[j], WithBody(info.instance, []));
    }
  }

  /** The run of the origin, from empty storages and with an empty stack. */
  method RunOrigin(tcx: Tcx, instance: Instance, ghost u: Universe)
    returns (ok: bool, functions: FunctionInfoStorage, closures: Closures, ghost history: seq<Event>,
             results: Domain, ghost c: Certificate, ghost x: Failure)
    requires ClosedUniverse(tcx, u) && u.occurs(OriginFunction(tcx, instance))
    ensures functions.origin == instance && fresh(functions)
    ensures !ok ==> x.l.origin == instance && Stopped(tcx, u, x)
    ensures var l, f := Ledger(instance, functions.fns, history), OriginFunction(tcx, instance);
            ok ==> && Sane(tcx, u, l, closures, [f], [f]) && c.chain == [f]
                   && Certifies(tcx, u, l, [f], 0, instance, results, c) && Resolvable(l.fns, results.calls)
  {
    functions := new FunctionInfoStorage(instance);
    var closureStorage := new ClosureInfoStorage();
    var stack := new VirtualStack();
    var collector := new Collector(OriginFunction(tcx, instance), stack, functions, closureStorage, tcx);
    EmptyIsSane(tcx, u, instance);
    ok, results, c, x := collector.Run(u);
    closures, history := closureStorage.closures, closureStorage.history;
    assert collector.Shared() == Ledger(instance, functions.fns, history);
    assert ok ==> collector.virtualStack.frames == [OriginFunction(tcx, instance)];
  }

  lemma EmptyIsSane(tcx: Tcx, u: Universe, instance: Instance)
    requires ClosedUniverse(tcx, u)
    ensures Sane(tcx, u, Ledger(instance, [], []), map[], [], []) && StackOf([]) == []
  {
  }

  /** The whole collection. It ends on every program, however recursive, whose universe is finite.
      If it is not ok it came to an operation that panics (`x`); it is ok if no operation in the universe
      panics. Then the storage is acyclic, every summary in it is certified by an
      analysis all of whose callers have stored a summary too, and the origin can be looked up.
      `results` is what the outer run of the origin found, under its own arguments and with nothing
      else on the stack, and `before` are the summaries stored until then. The lookup gives the outer
      run's summary exactly when `before` has none of the origin's instance, or that very one; a
      summary in `before` is of an inner run with other arguments. There is none if the origin's
      definition has a single item. */
  method Collect(tcx: Tcx, instance: Instance, ghost u: Universe)
    returns (ok: bool, functions: FunctionInfoStorage, closures: Closures, ghost history: seq<Event>,
             ghost results: Domain, ghost c: Certificate, ghost before: seq<FunctionInfo>, ghost x: Failure)
    requires ClosedUniverse(tcx, u) && u.occurs(OriginFunction(tcx, instance))
    ensures functions.origin == instance
    ensures !ok ==> x.l.origin == instance && Stopped(tcx, u, x)
    ensures NeverPanics(tcx, u) ==> ok
    ensures ok ==> StorageOk(tcx, u, Ledger(instance, functions.fns, history), [])
    ensures ok ==> Replay(map[], history) == Some(closures)
    ensures ok ==> Contains(functions.fns, SummaryOf(tcx, instance, results))
    ensures ok ==> CertifiedBy(tcx, Ledger(instance, functions.fns, history), instance, results, c)
                   && c.chain == [OriginFunction(tcx, instance)]
    ensures ok ==> functions.fns == Inserted(before, SummaryOf(tcx, instance, results))
    ensures ok ==> var early, outer, judged := Lookup(before, instance), SummaryOf(tcx, instance, results), Lookup(functions.fns, instance);
                   && judged.Some? && (judged.value == outer <==> early.None? || early.value == outer)
                   && (early.Some? ==> judged == early && InnerRunOfOrigin(tcx, Ledger(instance, functions.fns, history), early.value))
    ensures ok && OriginIsUnique(u, instance) ==> Lookup(before, instance).None?
  {
    var found;
    ok, functions, closures, history, found, c, x := RunOrigin(tcx, instance, u);
    results, before := found, functions.fns;
    if !ok {
      if NeverPanics(tcx, u) {
        CannotStop(tcx, u, x);
      }
      return;
    }
    ghost var l := Ledger(instance, functions.fns, history);
    ghost var early := Early(tcx, u, l, [OriginFunction(tcx, instance)]);
    LookupAfterInsert(functions.fns, SummaryOf(tcx, instance, found));
    OriginEnds(tcx, u, l, closures, found, c, early);
    functions.Insert(SummaryOf(tcx, instance, found));
  }

  /** The summary comes from a nested analysis of the origin's instance with other tracked arguments. */
  ghost predicate InnerRunOfOrigin(tcx: Tcx, l: Ledger, info: FunctionInfo) {
    && info.InfoWithBody? && info.instance == l.origin
    && exists c :: CertifiedBy(tcx, l, l.origin, DomainOf(info), c)
                   && |c.chain| > 1 && c.Function().trackedArgs != OriginArgs(tcx, l.origin)
  }

  /** What the lookup of the origin gives at the end of its run, before its own summary is stored. */
  lemma Early(tcx: Tcx, u: Universe, l: Ledger, live: seq<PartialFunction>) returns (early: Option<FunctionInfo>)
    requires ClosedUniverse(tcx, u) && StorageOk(tcx, u, l, live) && live != []
    ensures early == Lookup(l.fns, l.origin)
    ensures early.Some? ==> InnerRunOfOrigin(tcx, l, early.value) && !OriginIsUnique(u, l.origin)
  {
    var k := FindInstance(l.fns, l.origin);
    early := Lookup(l.fns, l.origin);
    if k.Some? {
      EarlySummaryIsAnInnerRuns(tcx, u, l, live, k.value);
    }
  }

  /** Storing what the outer run found ends the collection. */
  lemma OriginEnds(tcx: Tcx, u: Universe, l: Ledger, closures: Closures, results: Domain, c: Certificate, early: Option<FunctionInfo>)
    requires var f := OriginFunction(tcx, l.origin);
             && Sane(tcx, u, l, closures, [f], [f])
             && Certifies(tcx, u, l, [f], 0, l.origin, results, c) && Resolvable(l.fns, results.calls)
    requires early.Some? ==> InnerRunOfOrigin(tcx, l, early.value)
    ensures var l' := l.(fns := Inserted(l.fns, SummaryOf(tcx, l.origin, results)));
            && StorageOk(tcx, u, l', []) && Contains(l'.fns, SummaryOf(tcx, l.origin, results))
            && CertifiedBy(tcx, l', l.origin, results, c)
            && (early.Some? ==> InnerRunOfOrigin(tcx, l', early.value))
  {
    var f := OriginFunction(tcx, l.origin);
    var l' := l.(fns := Inserted(l.fns, SummaryOf(tcx, l.origin, results)));
    assert [] + [f] == [f];
    SaneAfterAnalysis(tcx, u, l, closures, [], f, results, c);
    CertificateIsStable(tcx, l, l', l.origin, results, c);
    if early.Some? {
      var e :| CertifiedBy(tcx, l, l.origin, DomainOf(early.value), e)
               && |e.chain| > 1 && e.Function().trackedArgs != OriginArgs(tcx, l.origin);
      CertificateIsStable(tcx, l, l', l.origin, DomainOf(early.value), e);
    }
  }
}
