/** What a collection records, and the evidence every stored summary rests on: a chain of calls from
    the origin to the analyzed function, a finished run over its body, and the block ends, with
    every call site on the way fully accounted for. */
module Evidence {
  import opened Options
  import opened Types
  import opened TrackedTypes
  import opened Mir
  import opened Domains
  import opened CollectorDomains
  import opened Transfers
  import opened Dataflow
  import opened FunctionStorage
  import opened ClosureStorage
  import opened Resolution

  /** All that is shared by the runs of a collection: the function it is about, the stored summaries,
      and the updates of the closure storage. The latter two only ever grow at their end. */
  datatype Ledger = Ledger(origin: Instance, fns: seq<FunctionInfo>, history: seq<Event>)

  ghost predicate Extended(l: Ledger, l': Ledger) {
    l.origin == l'.origin && Prefix(l.fns, l'.fns) && l.history <= l'.history
  }

  /** The closure storage as it was at some time. */
  ghost predicate IsSnapshot(history: seq<Event>, closures: Closures) {
    exists n: nat {:trigger history[..n]} :: n <= |history| && Replay(map[], history[..n]) == Some(closures)
  }

  // ---------------------------------------------------------------------------------------
  // Call sites

  /** The call site at the end of block `b` when the block is entered in state `d`. */
  ghost function SiteAt(tcx: Tcx, f: PartialFunction, d: Domain, b: nat): Option<Site> {
    var body := tcx.bodyOf(f.instance);
    if b >= |body.blocks| then None
    else
      match AfterStatements(tcx, body, f.instance.args, d, body.blocks[b].statements)
      case None => None
      case Some(after) => CallSite(tcx, f, body, after, body.blocks[b].terminator)
  }

  /** The callees of a resolved call that are not already being analyzed. */
  ghost function FreshCallees(callees: set<PartialFunction>, stack: seq<StackItem>): set<PartialFunction> {
    set g | g in callees && ItemOf(g) !in stack
  }

  /** What is recorded when a callee cannot be resolved. */
  function UnresolvedCall(site: Site): CallEffect
    requires site.functionTy.head.FnDef?
  {
    Called(WithoutBody(site.functionTy.head.did, site.args), None)
  }

  /** A call to `g` was recorded and its type flowed back; without a body that is the declared type. */
  ghost predicate IsEffectOf(tcx: Tcx, g: PartialFunction, site: Site, e: CallEffect) {
    && e.Called? && e.call == CallTo(g, site.args) && e.returned.Some?
    && (HasNoBody(g) ==> e.returned.value == FromTy(tcx.outputOf(g.instance)))
  }

  ghost predicate OneOfThemDid(tcx: Tcx, callees: set<PartialFunction>, site: Site, e: CallEffect) {
    exists g :: g in callees && IsEffectOf(tcx, g, site, e)
  }

  ghost predicate WasCalled(tcx: Tcx, g: PartialFunction, site: Site, es: seq<CallEffect>) {
    exists e :: e in es && IsEffectOf(tcx, g, site, e)
  }

  /** The effects are those of calls to `callees`, to each of them and to nothing else. */
  ghost predicate AreEffectsOf(tcx: Tcx, callees: set<PartialFunction>, site: Site, es: seq<CallEffect>) {
    && (forall e {:trigger OneOfThemDid(tcx, callees, site, e)} | e in es :: OneOfThemDid(tcx, callees, site, e))
    && (forall g {:trigger WasCalled(tcx, g, site, es)} | g in callees :: WasCalled(tcx, g, site, es))
  }

  /** The effects account for the call: an unknown kind of callee is recorded as unhandled, a
      failed or empty resolution as a call without body, and otherwise there is a call for
      exactly every callee that is not on the stack. */
  ghost predicate Accounts(tcx: Tcx, caller: PartialFunction, site: Site, closures: Closures,
                           stack: seq<StackItem>, es: seq<CallEffect>)
  {
    if !site.functionTy.head.FnDef? then es == [NotHandled(site.functionTy)]
    else
      match ResolveSite(tcx, caller, site, closures)
      case Panics => false
      case Failed => es == [UnresolvedCall(site)]
      case Fine(callees) =>
        if callees == {} then es == [UnresolvedCall(site)]
        else AreEffectsOf(tcx, FreshCallees(callees, stack), site, es)
  }

  lemma SkippedCallee(stack: seq<StackItem>, done: set<PartialFunction>, g: PartialFunction)
    requires ItemOf(g) in stack
    ensures FreshCallees(done + {g}, stack) == FreshCallees(done, stack)
  {
  }

  lemma OneMoreCallee(tcx: Tcx, stack: seq<StackItem>, done: set<PartialFunction>, g: PartialFunction, site: Site,
                      es: seq<CallEffect>, e: CallEffect)
    requires ItemOf(g) !in stack && IsEffectOf(tcx, g, site, e)
    requires AreEffectsOf(tcx, FreshCallees(done, stack), site, es)
    ensures AreEffectsOf(tcx, FreshCallees(done + {g}, stack), site, es + [e])
  {
    assert FreshCallees(done + {g}, stack) == FreshCallees(done, stack) + {g};
    EffectsOfOneMore(tcx, FreshCallees(done, stack), g, site, es, e);
  }

  lemma EffectsOfOneMore(tcx: Tcx, callees: set<PartialFunction>, g: PartialFunction, site: Site,
                         es: seq<CallEffect>, e: CallEffect)
    requires IsEffectOf(tcx, g, site, e) && AreEffectsOf(tcx, callees, site, es)
    ensures AreEffectsOf(tcx, callees + {g}, site, es + [e])
  {
    forall x | x in es + [e]
      ensures OneOfThemDid(tcx, callees + {g}, site, x)
    {
      if x in es {
        assert OneOfThemDid(tcx, callees, site, x);
        var h :| h in callees && IsEffectOf(tcx, h, site, x);
        assert h in callees + {g};
      } else {
        assert g in callees + {g};
      }
    }
    forall h | h in callees + {g}
      ensures WasCalled(tcx, h, site, es + [e])
    {
      if h in callees {
        assert WasCalled(tcx, h, site, es);
        var x :| x in es && IsEffectOf(tcx, h, site, x);
        assert x in es + [e];
      } else {
        assert e in es + [e];
      }
    }
  }

  /** The type a call with a body returned is the return type of a stored summary of its callee. */
  ghost predicate Justified(tcx: Tcx, fns: seq<FunctionInfo>, e: CallEffect) {
    e.Called? && e.call.WithBody? ==>
      exists k :: 0 <= k < |fns| && IsSummaryOf(fns[k], e.call.instance)
                  && e.returned.Some? && e.returned == ReturnType(tcx, tcx.bodyOf(e.call.instance), fns[k].places)
  }

  ghost predicate IsSummaryOf(info: FunctionInfo, instance: Instance) {
    info.InfoWithBody? && info.instance == instance
  }

  ghost predicate AllJustified(tcx: Tcx, fns: seq<FunctionInfo>, es: seq<CallEffect>) {
    forall i | 0 <= i < |es| :: Justified(tcx, fns, es[i])
  }

  // ---------------------------------------------------------------------------------------
  // Recorded block transfers

  /** The closure a statement creates, with what it captures. */
  function ClosureCreated(tcx: Tcx, body: Body, d: Domain, stmt: Statement): Option<(Ty, seq<TrackedTy>)> {
    match stmt
    case Assign(_, Aggregate(ClosureOf(ty), ops)) => Some((ty, OperandsTracked(tcx, body, d, ops)))
    case _ => None
  }

  /** What statement `k` captures, when the statements before it have run from `d`. */
  ghost function CapturedAt(tcx: Tcx, f: PartialFunction, d: Domain, stmts: seq<Statement>, k: nat): Option<Event>
    requires k < |stmts|
  {
    var body := tcx.bodyOf(f.instance);
    match AfterStatements(tcx, body, f.instance.args, d, stmts[..k])
    case None => None
    case Some(before) =>
      match ClosureCreated(tcx, body, before, stmts[k])
      case None => None
      case Some((ty, upvars)) => Some(Event(ty, f.instance.args, upvars))
  }

  /** Closures created by the first `n` statements are in the closure storage with their captures. */
  ghost predicate CapturesRecorded(tcx: Tcx, history: seq<Event>, f: PartialFunction, d: Domain, stmts: seq<Statement>, n: nat)
    requires n <= |stmts|
  {
    forall k {:trigger CapturedAt(tcx, f, d, stmts, k)} | 0 <= k < n && CapturedAt(tcx, f, d, stmts, k).Some? ::
      CapturedAt(tcx, f, d, stmts, k).value in history
  }

  /** A block transfer as it was recorded: what its closures captured was stored, its call site is
      accounted for with the closure storage `closures`, and returned types come from the storage. */
  ghost predicate StepRecorded(tcx: Tcx, l: Ledger, f: PartialFunction, stack: seq<StackItem>, s: Step, closures: Closures) {
    var body := tcx.bodyOf(f.instance);
    && s.block < |body.blocks|
    && CapturesRecorded(tcx, l.history, f, s.input, body.blocks[s.block].statements, |body.blocks[s.block].statements|)
    && IsSnapshot(l.history, closures)
    && AllJustified(tcx, l.fns, s.effects)
    && match SiteAt(tcx, f, s.input, s.block)
       case None => s.effects == []
       case Some(site) => Accounts(tcx, f, site, closures, stack, s.effects)
  }

  /** Block transfers, each with the closure storage at its call. */
  datatype Recording = Recording(steps: seq<Step>, snapshots: seq<Closures>)

  ghost predicate AllRecorded(tcx: Tcx, l: Ledger, f: PartialFunction, stack: seq<StackItem>, r: Recording) {
    && |r.snapshots| == |r.steps|
    && forall i {:trigger StepRecorded(tcx, l, f, stack, r.steps[i], r.snapshots[i])} | 0 <= i < |r.steps| ::
         StepRecorded(tcx, l, f, stack, r.steps[i], r.snapshots[i])
  }

  function OneMore(r: Recording, s: Step, closures: Closures): Recording {
    Recording(r.steps + [s], r.snapshots + [closures])
  }

  ghost function SettingOf(tcx: Tcx, f: PartialFunction): Setting
    requires Bottom(tcx, f).Some?
  {
    Setting(tcx, tcx.bodyOf(f.instance), f.instance.args, Bottom(tcx, f).value)
  }

  /** A run over the body of `f`, possibly unfinished. */
  ghost predicate IsRecordedRun(tcx: Tcx, l: Ledger, f: PartialFunction, stack: seq<StackItem>, run: Recording) {
    && Bottom(tcx, f).Some?
    && IsRun(SettingOf(tcx, f), run.steps)
    && AllRecorded(tcx, l, f, stack, run)
  }

  // ---------------------------------------------------------------------------------------
  // Chains of calls

  /** The origin's arguments are only known by their declared types. */
  function OriginArgs(tcx: Tcx, instance: Instance): seq<TrackedTy> {
    var body := tcx.bodyOf(instance);
    seq(body.argCount, i requires 0 <= i < body.argCount => FromTy(tcx.placeTy(body, Place(i + 1, []))))
  }

  function OriginFunction(tcx: Tcx, instance: Instance): PartialFunction {
    RegularFunction(instance, OriginArgs(tcx, instance))
  }

  /** The origin is entered as declared: with the types of arguments that hide nothing, and nothing of the others. */
  lemma OriginEntersAsDeclared(tcx: Tcx, instance: Instance, i: nat)
    requires i < tcx.bodyOf(instance).argCount
    ensures var f, ty := OriginFunction(tcx, instance), tcx.placeTy(tcx.bodyOf(instance), Place(i + 1, []));
            && f.instance == instance && f.RegularFunction? && |f.trackedArgs| == tcx.bodyOf(instance).argCount
            && TypesOf(f.trackedArgs[i]) == (if ContainsErased(ty) then {} else {ty}) && (f.trackedArgs[i].Erased? <==> ContainsErased(ty))
  {
  }

  /** What the recursion guard holds when the functions of the chain are being analyzed. */
  ghost function StackOf(chain: seq<PartialFunction>): seq<StackItem> {
    seq(|chain|, i requires 0 <= i < |chain| => ItemOf(chain[i]))
  }

  ghost predicate NoRepeats(stack: seq<StackItem>) {
    forall i, j | 0 <= i < j < |stack| :: stack[i] != stack[j]
  }

  ghost function Last(chain: seq<PartialFunction>): PartialFunction
    requires chain != []
  {
    chain[|chain| - 1]
  }

  /** The moment of a call: the run so far, the block, and the closure storage. */
  datatype CallPoint = CallPoint(run: Recording, block: nat, closures: Closures)

  /** The analysis at the end of the chain is, at some moment, at the call site. */
  ghost predicate ReachesSite(tcx: Tcx, l: Ledger, chain: seq<PartialFunction>, w: CallPoint, site: Site) {
    && chain != []
    && IsRecordedRun(tcx, l, Last(chain), StackOf(chain), w.run)
    && IsSnapshot(l.history, w.closures)
    && w.block < |tcx.bodyOf(Last(chain).instance).blocks|
    && SiteAt(tcx, Last(chain), Entries(SettingOf(tcx, Last(chain)), w.run.steps)[w.block], w.block) == Some(site)
  }

  ghost predicate IsCallee(tcx: Tcx, f: PartialFunction, site: Site, closures: Closures, g: PartialFunction) {
    && site.functionTy.head.FnDef?
    && ResolveSite(tcx, f, site, closures).Fine?
    && g in ResolveSite(tcx, f, site, closures).value
  }

  /** The analysis at the end of the chain comes to a call that resolves to `g`. */
  ghost predicate ComesToCall(tcx: Tcx, l: Ledger, chain: seq<PartialFunction>, g: PartialFunction) {
    exists w, site :: ReachesSite(tcx, l, chain, w, site) && IsCallee(tcx, Last(chain), site, w.closures, g)
  }

  ghost predicate LinkOk(tcx: Tcx, l: Ledger, chain: seq<PartialFunction>, i: nat)
    requires i + 1 < |chain|
  {
    ComesToCall(tcx, l, chain[..i + 1], chain[i + 1])
  }

  /** Nested analyses, from that of the origin: each is of a callee resolved at a call site the one
      before came to, and none repeats an item of the recursion guard. */
  ghost predicate IsChain(tcx: Tcx, l: Ledger, chain: seq<PartialFunction>) {
    && NoRepeats(StackOf(chain))
    && (chain != [] ==> chain[0] == OriginFunction(tcx, l.origin))
    && forall i {:trigger LinkOk(tcx, l, chain, i)} | 0 <= i < |chain| - 1 :: LinkOk(tcx, l, chain, i)
  }

  /** The analysis of `g` may be started from the one at the end of the chain. */
  ghost predicate MayFollow(tcx: Tcx, l: Ledger, chain: seq<PartialFunction>, g: PartialFunction) {
    && ItemOf(g) !in StackOf(chain)
    && if chain == [] then g == OriginFunction(tcx, l.origin) else ComesToCall(tcx, l, chain, g)
  }

  lemma ChainGrows(tcx: Tcx, l: Ledger, chain: seq<PartialFunction>, g: PartialFunction)
    requires IsChain(tcx, l, chain) && MayFollow(tcx, l, chain, g)
    ensures IsChain(tcx, l, chain + [g])
    ensures StackOf(chain + [g]) == StackOf(chain) + [ItemOf(g)]
  {
    var longer := chain + [g];
    assert StackOf(longer) == StackOf(chain) + [ItemOf(g)];
    forall i | 0 <= i < |longer| - 1
      ensures LinkOk(tcx, l, longer, i)
    {
      if i < |chain| - 1 {
        assert LinkOk(tcx, l, chain, i);
        assert longer[..i + 1] == chain[..i + 1] && longer[i + 1] == chain[i + 1];
      } else {
        assert longer[..i + 1] == chain;
      }
    }
  }

  lemma ChainPrefix(tcx: Tcx, l: Ledger, chain: seq<PartialFunction>, n: nat)
    requires IsChain(tcx, l, chain) && n <= |chain|
    ensures IsChain(tcx, l, chain[..n])
  {
    forall i, j | 0 <= i < j < n ensures StackOf(chain[..n])[i] != StackOf(chain[..n])[j] {
      assert StackOf(chain)[i] != StackOf(chain)[j];
    }
    forall i | 0 <= i < n - 1
      ensures LinkOk(tcx, l, chain[..n], i)
    {
      assert LinkOk(tcx, l, chain, i);
      assert chain[..n][..i + 1] == chain[..i + 1];
    }
  }

  // ---------------------------------------------------------------------------------------
  // Certificates

  /** Evidence for a summary: the chain that led to the analysis, its run up to the fixpoint, and
      the block ends. */
  datatype Certificate = Certificate(chain: seq<PartialFunction>, run: Recording, ends: Recording)
  {
    /** The analyzed function. */
    ghost function Function(): PartialFunction
      requires chain != []
    {
      Last(chain)
    }
  }

  /** Every closure type of the body has been entered in the closure storage. */
  ghost predicate TypesRecorded(tcx: Tcx, history: seq<Event>, f: PartialFunction) {
    forall ty | ty in tcx.bodyOf(f.instance).types :: Event(ty, f.instance.args, []) in history
  }

  ghost predicate ValidCertificate(tcx: Tcx, l: Ledger, c: Certificate) {
    && c.chain != [] && IsChain(tcx, l, c.chain)
    && TypesRecorded(tcx, l.history, c.Function())
    && IsRecordedRun(tcx, l, c.Function(), StackOf(c.chain), c.run)
    && IsFixpoint(SettingOf(tcx, c.Function()), c.run.steps)
    && AreBlockEnds(SettingOf(tcx, c.Function()), c.run.steps, c.ends.steps)
    && AllRecorded(tcx, l, c.Function(), StackOf(c.chain), c.ends)
  }

  ghost predicate CertifiedBy(tcx: Tcx, l: Ledger, instance: Instance, d: Domain, c: Certificate) {
    ValidCertificate(tcx, l, c) && c.Function().instance == instance && d == JoinAll(c.ends.steps)
  }

  // ---------------------------------------------------------------------------------------
  // Evidence stays valid while the ledger grows

  lemma JustifiedIsStable(tcx: Tcx, fns: seq<FunctionInfo>, fns': seq<FunctionInfo>, es: seq<CallEffect>)
    requires Prefix(fns, fns') && AllJustified(tcx, fns, es)
    ensures AllJustified(tcx, fns', es)
  {
    forall i | 0 <= i < |es| && es[i].Called? && es[i].call.WithBody?
      ensures Justified(tcx, fns', es[i])
    {
      assert Justified(tcx, fns, es[i]);
      var k :| 0 <= k < |fns| && IsSummaryOf(fns[k], es[i].call.instance)
               && es[i].returned.Some? && es[i].returned == ReturnType(tcx, tcx.bodyOf(es[i].call.instance), fns[k].places);
      assert fns'[k] == fns[k];
    }
  }

  lemma SnapshotIsStable(history: seq<Event>, history': seq<Event>, closures: Closures)
    requires history <= history' && IsSnapshot(history, closures)
    ensures IsSnapshot(history', closures)
  {
    var n: nat :| n <= |history| && Replay(map[], history[..n]) == Some(closures);
    assert history'[..n] == history[..n];
  }

  lemma RecordedIsStable(tcx: Tcx, l: Ledger, l': Ledger, f: PartialFunction, stack: seq<StackItem>, r: Recording)
    requires Extended(l, l') && AllRecorded(tcx, l, f, stack, r)
    ensures AllRecorded(tcx, l', f, stack, r)
  {
    forall i | 0 <= i < |r.steps|
      ensures StepRecorded(tcx, l', f, stack, r.steps[i], r.snapshots[i])
    {
      assert StepRecorded(tcx, l, f, stack, r.steps[i], r.snapshots[i]);
      SnapshotIsStable(l.history, l'.history, r.snapshots[i]);
      JustifiedIsStable(tcx, l.fns, l'.fns, r.steps[i].effects);
    }
  }

  lemma SiteIsStable(tcx: Tcx, l: Ledger, l': Ledger, chain: seq<PartialFunction>, w: CallPoint, site: Site)
    requires Extended(l, l') && ReachesSite(tcx, l, chain, w, site)
    ensures ReachesSite(tcx, l', chain, w, site)
  {
    RecordedIsStable(tcx, l, l', Last(chain), StackOf(chain), w.run);
    SnapshotIsStable(l.history, l'.history, w.closures);
  }

  lemma CallIsStable(tcx: Tcx, l: Ledger, l': Ledger, chain: seq<PartialFunction>, g: PartialFunction)
    requires Extended(l, l') && ComesToCall(tcx, l, chain, g)
    ensures ComesToCall(tcx, l', chain, g)
  {
    var w, site :| ReachesSite(tcx, l, chain, w, site) && IsCallee(tcx, Last(chain), site, w.closures, g);
    SiteIsStable(tcx, l, l', chain, w, site);
  }

  lemma ChainIsStable(tcx: Tcx, l: Ledger, l': Ledger, chain: seq<PartialFunction>)
    requires Extended(l, l') && IsChain(tcx, l, chain)
    ensures IsChain(tcx, l', chain)
  {
    forall i | 0 <= i < |chain| - 1
      ensures LinkOk(tcx, l', chain, i)
    {
      assert LinkOk(tcx, l, chain, i);
      CallIsStable(tcx, l, l', chain[..i + 1], chain[i + 1]);
    }
  }

  /** A certificate is one for good. */
  lemma CertificateIsStable(tcx: Tcx, l: Ledger, l': Ledger, instance: Instance, d: Domain, c: Certificate)
    requires Extended(l, l') && CertifiedBy(tcx, l, instance, d, c)
    ensures CertifiedBy(tcx, l', instance, d, c)
  {
    ChainIsStable(tcx, l, l', c.chain);
    RecordedIsStable(tcx, l, l', c.Function(), StackOf(c.chain), c.run);
    RecordedIsStable(tcx, l, l', c.Function(), StackOf(c.chain), c.ends);
  }

  /** Recording one more transfer. */
  lemma RecordOneMore(tcx: Tcx, l: Ledger, f: PartialFunction, stack: seq<StackItem>, r: Recording, s: Step, closures: Closures)
    requires AllRecorded(tcx, l, f, stack, r) && StepRecorded(tcx, l, f, stack, s, closures)
    ensures AllRecorded(tcx, l, f, stack, OneMore(r, s, closures))
  {
    var longer := OneMore(r, s, closures);
    forall i | 0 <= i < |longer.steps|
      ensures StepRecorded(tcx, l, f, stack, longer.steps[i], longer.snapshots[i])
    {
      if i < |r.steps| {
        assert StepRecorded(tcx, l, f, stack, r.steps[i], r.snapshots[i]);
        assert longer.steps[i] == r.steps[i] && longer.snapshots[i] == r.snapshots[i];
      }
    }
  }
}
