/** Where an analysis can panic: the operations of the source that may fail, and what it means that a
    collection came to one that does. */
module Failures {
  import opened Options
  import opened Types
  import opened TrackedTypes
  import opened Mir
  import opened Domains
  import opened CollectorDomains
  import opened Transfers
  import opened Dataflow
  import opened FunctionStorage
  import opened ClosureStorage
  import opened Resolution
  import opened Evidence
  import opened Summaries

  /** `StartState`: the inputs of a function do not fit its body. `RunStatement`: statement `k`, in state
      `d` and with the closure storage `closures`. `ResolveCallee`: the call of the block.
      `TakeReturnType`: the type returned by `g`, whose summary is `summary`. `PassReturn`: the effect
      `e` of a call to `g` on state `d`, after the effects `es` of the other callees `done`. */
  datatype Operation =
    | StartState
    | RunStatement(k: nat, d: Domain, closures: Closures)
    | ResolveCallee(site: Site, closures: Closures)
    | TakeReturnType(site: Site, closures: Closures, g: PartialFunction, summary: Domain)
    | PassReturn(site: Site, closures: Closures, g: PartialFunction, done: set<PartialFunction>, es: seq<CallEffect>, d: Domain,
                 e: CallEffect)

  /** The operation, the analyses that were going on, the run of the innermost one, the block it was
      at, and what was recorded by then. */
  datatype Failure = Failure(l: Ledger, chain: seq<PartialFunction>, run: Recording, block: nat, operation: Operation)

  function BlockOf(tcx: Tcx, f: PartialFunction, b: nat): Option<Block> {
    var body := tcx.bodyOf(f.instance);
    if b < |body.blocks| then Some(body.blocks[b]) else None
  }

  /** Types that cannot be tracked or projected, a place that is not tracked, or captures of another number. */
  ghost predicate StatementPanics(tcx: Tcx, f: PartialFunction, d: Domain, stmt: Statement, closures: Closures) {
    var body, substs := tcx.bodyOf(f.instance), f.instance.args;
    || StatementEffect(tcx, body, substs, d, stmt).None?
    || match ClosureCreated(tcx, body, d, stmt)
       case None => false
       case Some((ty, upvars)) => UpdateClosures(closures, ty, substs, upvars).None?
  }

  /** The operation of `f` at block `b` panics in the source. */
  ghost predicate OperationPanics(tcx: Tcx, f: PartialFunction, b: nat, op: Operation) {
    match op
    case StartState => Bottom(tcx, f).None?
    case RunStatement(k, d, closures) =>
      BlockOf(tcx, f, b).Some? && k < |BlockOf(tcx, f, b).value.statements|
      && StatementPanics(tcx, f, d, BlockOf(tcx, f, b).value.statements[k], closures)
    case ResolveCallee(site, closures) => site.functionTy.head.FnDef? && ResolveSite(tcx, f, site, closures).Panics?
    case TakeReturnType(_, _, g, summary) => ReturnType(tcx, tcx.bodyOf(g.instance), summary.places).None?
    case PassReturn(_, _, _, _, _, d, e) =>
      BlockOf(tcx, f, b).Some?
      && ApplyEffect(tcx, tcx.bodyOf(f.instance), d, Destination(BlockOf(tcx, f, b).value.terminator), e).None?
  }

  /** The analysis at the end of the chain came to the operation. */
  ghost predicate IsReached(tcx: Tcx, x: Failure) {
    && x.chain != [] && IsChain(tcx, x.l, x.chain)
    && match x.operation
       case StartState => true
       case RunStatement(k, d, closures) =>
         var f := Last(x.chain);
         && IsRecordedRun(tcx, x.l, f, StackOf(x.chain), x.run)
         && BlockOf(tcx, f, x.block).Some? && k < |BlockOf(tcx, f, x.block).value.statements|
         && AfterStatements(tcx, tcx.bodyOf(f.instance), f.instance.args, Entries(SettingOf(tcx, f), x.run.steps)[x.block],
                            BlockOf(tcx, f, x.block).value.statements[..k]) == Some(d)
         && IsSnapshot(x.l.history, closures)
       case ResolveCallee(site, closures) => ReachesSite(tcx, x.l, x.chain, CallPoint(x.run, x.block, closures), site)
       case TakeReturnType(site, closures, g, summary) =>
         && ReachesSite(tcx, x.l, x.chain, CallPoint(x.run, x.block, closures), site)
         && IsCallee(tcx, Last(x.chain), site, closures, g)
         && Contains(x.l.fns, SummaryOf(tcx, g.instance, summary))
       case PassReturn(site, closures, g, done, es, d, e) =>
         && ReachesSite(tcx, x.l, x.chain, CallPoint(x.run, x.block, closures), site)
         && IsCallee(tcx, Last(x.chain), site, closures, g)
         && OthersDone(tcx, x.chain, site, closures, g, done, es)
         && AfterCallees(tcx, x, es) == Some(d)
         && IsEffectOf(tcx, g, site, e) && Justified(tcx, x.l.fns, e)
  }

  /** The call had the effects `es` of the other callees `done` so far, of those that were not being analyzed. */
  ghost predicate OthersDone(tcx: Tcx, chain: seq<PartialFunction>, site: Site, closures: Closures, g: PartialFunction,
                             done: set<PartialFunction>, es: seq<CallEffect>)
    requires chain != [] && IsCallee(tcx, Last(chain), site, closures, g)
  {
    && done <= ResolveSite(tcx, Last(chain), site, closures).value - {g}
    && AreEffectsOf(tcx, FreshCallees(done, StackOf(chain)), site, es)
  }

  /** The state in the middle of the block's call, when the callees processed so far had the effects `es`. */
  ghost function AfterCallees(tcx: Tcx, x: Failure, es: seq<CallEffect>): Option<Domain>
    requires x.chain != [] && Bottom(tcx, Last(x.chain)).Some? && x.block < |tcx.bodyOf(Last(x.chain).instance).blocks|
  {
    var f := Last(x.chain);
    BlockEffect(tcx, tcx.bodyOf(f.instance), f.instance.args, Entries(SettingOf(tcx, f), x.run.steps)[x.block], x.block, es)
  }

  /** The operation is one that can be met in the universe. */
  ghost predicate OperationOccurs(tcx: Tcx, u: Universe, f: PartialFunction, b: nat, op: Operation) {
    u.occurs(f) &&
    match op
    case StartState => true
    case RunStatement(_, d, closures) => u.stateOccurs(f.instance, d) && u.closuresOccur(closures)
    case ResolveCallee(site, closures) => SiteOccurs(tcx, u, f, b, site) && u.closuresOccur(closures)
    case TakeReturnType(site, closures, g, summary) =>
      && SiteOccurs(tcx, u, f, b, site) && u.closuresOccur(closures) && IsCallee(tcx, f, site, closures, g)
      && u.occurs(g) && u.stateOccurs(g.instance, summary)
    case PassReturn(site, closures, g, _, _, d, e) =>
      && SiteOccurs(tcx, u, f, b, site) && u.closuresOccur(closures) && IsCallee(tcx, f, site, closures, g)
      && u.occurs(g) && u.stateOccurs(f.instance, d) && ReturnOccurs(tcx, u, g, site, e)
  }

  ghost predicate SiteOccurs(tcx: Tcx, u: Universe, f: PartialFunction, b: nat, site: Site) {
    && BlockOf(tcx, f, b).Some?
    && exists d :: u.stateOccurs(f.instance, d)
                   && CallSite(tcx, f, tcx.bodyOf(f.instance), d, BlockOf(tcx, f, b).value.terminator) == Some(site)
  }

  ghost predicate ReturnOccurs(tcx: Tcx, u: Universe, g: PartialFunction, site: Site, e: CallEffect) {
    exists r :: (HasNoBody(g) || u.stateOccurs(g.instance, r)) && ReturnedBy(tcx, g, r).Some?
                && e == Called(CallTo(g, site.args), ReturnedBy(tcx, g, r))
  }

  /** A collection in the universe came to an operation that panics. */
  ghost predicate Stopped(tcx: Tcx, u: Universe, x: Failure) {
    && IsReached(tcx, x)
    && OperationOccurs(tcx, u, Last(x.chain), x.block, x.operation)
    && OperationPanics(tcx, Last(x.chain), x.block, x.operation)
  }

  /** ... after `l` was recorded. */
  ghost predicate StoppedAfter(tcx: Tcx, u: Universe, l: Ledger, x: Failure) {
    Extended(l, x.l) && Stopped(tcx, u, x)
  }

  /** No operation that can be met panics. */
  ghost predicate NeverPanics(tcx: Tcx, u: Universe) {
    forall f, b, op {:trigger OperationPanics(tcx, f, b, op)} | OperationOccurs(tcx, u, f, b, op) :: !OperationPanics(tcx, f, b, op)
  }

  lemma CannotStop(tcx: Tcx, u: Universe, x: Failure)
    requires NeverPanics(tcx, u)
    ensures !Stopped(tcx, u, x)
  {
  }

  /** A stop later on is one after what was recorded before. */
  lemma StoppedEarlier(tcx: Tcx, u: Universe, l: Ledger, l': Ledger, x: Failure)
    requires Extended(l, l') && StoppedAfter(tcx, u, l', x)
    ensures StoppedAfter(tcx, u, l, x)
  {
  }
}
