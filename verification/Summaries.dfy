/** What a collection keeps true of its storage: every stored summary rests on evidence, the call
    graph is acyclic, and every analysis that was entered is still going on or has stored a summary. */
module Summaries {
  import opened Options
  import opened Types
  import opened TrackedTypes
  import opened Mir
  import opened Domains
  import opened CollectorDomains
  import opened Transfers
  import opened Dataflow
  import opened FunctionStorage
  import opened ClosureStorage
  import opened Resolution
  import opened Evidence

  function DomainOf(info: FunctionInfo): Domain
    requires info.InfoWithBody?
  {
    Domain(info.places, info.calls, info.unhandled)
  }

  function SummaryOf(tcx: Tcx, instance: Instance, d: Domain): FunctionInfo {
    var body := tcx.bodyOf(instance);
    InfoWithBody(instance, d.places, d.calls, body, body.span, d.unhandled)
  }

  // ---------------------------------------------------------------------------------------
  // Finite universes

  /** What a collection may ever meet: finitely many items for the recursion guard, and for every
      instance finitely many facts its states can hold. The predicates say which partial
      functions, closure storages and states of an instance occur. */
  datatype Universe = Universe(
    items: set<StackItem>,
    facts: Instance -> set<Fact>,
    occurs: PartialFunction -> bool,
    closuresOccur: Closures -> bool,
    stateOccurs: (Instance, Domain) -> bool)

  ghost predicate StatementIn(body: Body, stmt: Statement) {
    exists b :: 0 <= b < |body.blocks| && stmt in body.blocks[b].statements
  }

  /** The states of an instance have one shape, hold only its facts, and are closed under join. */
  ghost predicate StatesClosed(u: Universe, instance: Instance) {
    && (forall d {:trigger Facts(d)} | u.stateOccurs(instance, d) :: Facts(d) <= u.facts(instance))
    && (forall a, b {:trigger SameShape(a, b)} | u.stateOccurs(instance, a) && u.stateOccurs(instance, b) :: SameShape(a, b))
    && (forall a, b {:trigger JoinDomains(a, b)} | u.stateOccurs(instance, a) && u.stateOccurs(instance, b) ::
          u.stateOccurs(instance, JoinDomains(a, b)))
  }

  ghost predicate StatementStays(tcx: Tcx, u: Universe, f: PartialFunction, stmt: Statement) {
    var body, substs := tcx.bodyOf(f.instance), f.instance.args;
    forall d {:trigger StatementEffect(tcx, body, substs, d, stmt)} |
      u.stateOccurs(f.instance, d) && StatementEffect(tcx, body, substs, d, stmt).Some? ::
      u.stateOccurs(f.instance, StatementEffect(tcx, body, substs, d, stmt).value)
  }

  ghost predicate ClosureUpdateStays(u: Universe, c: Closures, ty: Ty, substs: seq<Ty>, upvars: seq<TrackedTy>) {
    var c' := UpdateClosures(c, ty, substs, upvars);
    c'.Some? ==> u.closuresOccur(c'.value)
  }

  ghost predicate ClosuresStay(tcx: Tcx, u: Universe, f: PartialFunction, c: Closures) {
    var body, substs := tcx.bodyOf(f.instance), f.instance.args;
    && (forall ty {:trigger ClosureUpdateStays(u, c, ty, substs, [])} | ty in body.types ::
          ClosureUpdateStays(u, c, ty, substs, []))
    && (forall d, stmt {:trigger ClosureCreated(tcx, body, d, stmt)} |
          StatementIn(body, stmt) && u.stateOccurs(f.instance, d) && ClosureCreated(tcx, body, d, stmt).Some? ::
          ClosureUpdateStays(u, c, ClosureCreated(tcx, body, d, stmt).value.0, substs,
                             ClosureCreated(tcx, body, d, stmt).value.1))
  }

  /** The tracked type a callee hands back when its summary is `r`. */
  function ReturnedBy(tcx: Tcx, g: PartialFunction, r: Domain): Option<TrackedTy> {
    if HasNoBody(g) then Some(FromTy(tcx.outputOf(g.instance)))
    else ReturnType(tcx, tcx.bodyOf(g.instance), r.places)
  }

  /** Recording a call to `g` that returned `t`. */
  ghost predicate EffectStays(tcx: Tcx, u: Universe, f: PartialFunction, destination: Option<Place>, e: CallEffect) {
    var body := tcx.bodyOf(f.instance);
    forall d {:trigger ApplyEffect(tcx, body, d, destination, e)} |
      u.stateOccurs(f.instance, d) && ApplyEffect(tcx, body, d, destination, e).Some? ::
      u.stateOccurs(f.instance, ApplyEffect(tcx, body, d, destination, e).value)
  }

  ghost predicate CalleeStays(tcx: Tcx, u: Universe, f: PartialFunction, site: Site, destination: Option<Place>, g: PartialFunction) {
    && u.occurs(g)
    && forall r {:trigger ReturnedBy(tcx, g, r)} |
         (HasNoBody(g) || u.stateOccurs(g.instance, r)) && ReturnedBy(tcx, g, r).Some? ::
         EffectStays(tcx, u, f, destination, Called(CallTo(g, site.args), ReturnedBy(tcx, g, r)))
  }

  ghost predicate SiteStays(tcx: Tcx, u: Universe, f: PartialFunction, site: Site, destination: Option<Place>, c: Closures) {
    if !site.functionTy.head.FnDef? then EffectStays(tcx, u, f, destination, NotHandled(site.functionTy))
    else
      match ResolveSite(tcx, f, site, c)
      case Panics => true
      case Failed => EffectStays(tcx, u, f, destination, UnresolvedCall(site))
      case Fine(callees) =>
        if callees == {} then EffectStays(tcx, u, f, destination, UnresolvedCall(site))
        else forall g {:trigger CalleeStays(tcx, u, f, site, destination, g)} | g in callees ::
               CalleeStays(tcx, u, f, site, destination, g)
  }

  ghost predicate TerminatorStays(tcx: Tcx, u: Universe, f: PartialFunction, t: Terminator) {
    var body := tcx.bodyOf(f.instance);
    forall d, c {:trigger CallSite(tcx, f, body, d, t), u.closuresOccur(c)} |
      u.stateOccurs(f.instance, d) && u.closuresOccur(c) && CallSite(tcx, f, body, d, t).Some? ::
      SiteStays(tcx, u, f, CallSite(tcx, f, body, d, t).value, Destination(t), c)
  }

  ghost predicate FunctionStays(tcx: Tcx, u: Universe, f: PartialFunction) {
    var body := tcx.bodyOf(f.instance);
    && WellFormedBody(body)
    && ItemOf(f) in u.items
    && StatesClosed(u, f.instance)
    && (Bottom(tcx, f).Some? ==> u.stateOccurs(f.instance, Bottom(tcx, f).value))
    && (forall c {:trigger ClosuresStay(tcx, u, f, c)} | u.closuresOccur(c) :: ClosuresStay(tcx, u, f, c))
    && (forall stmt {:trigger StatementStays(tcx, u, f, stmt)} | StatementIn(body, stmt) :: StatementStays(tcx, u, f, stmt))
    && (forall b {:trigger body.blocks[b]} | 0 <= b < |body.blocks| :: TerminatorStays(tcx, u, f, body.blocks[b].terminator))
  }

  /** The universe is closed under everything the bodies of its functions do. */
  ghost predicate ClosedUniverse(tcx: Tcx, u: Universe) {
    && u.closuresOccur(map[])
    && forall f {:trigger FunctionStays(tcx, u, f)} | u.occurs(f) :: FunctionStays(tcx, u, f)
  }

  // ---------------------------------------------------------------------------------------
  // The storage invariant

  ghost predicate HasSummary(fns: seq<FunctionInfo>, instance: Instance) {
    FindInstance(fns, instance).Some?
  }

  /** Every analysis on the chain is going on or has stored a summary. */
  ghost predicate ChainStored(u: Universe, fns: seq<FunctionInfo>, live: seq<PartialFunction>, chain: seq<PartialFunction>) {
    forall g {:trigger LiveOrStored(u, fns, live, g)} | g in chain :: LiveOrStored(u, fns, live, g)
  }

  ghost predicate LiveOrStored(u: Universe, fns: seq<FunctionInfo>, live: seq<PartialFunction>, g: PartialFunction) {
    u.occurs(g) && (g in live || HasSummary(fns, g.instance))
  }

  ghost predicate Evident(tcx: Tcx, u: Universe, l: Ledger, live: seq<PartialFunction>, instance: Instance, d: Domain,
                          c: Certificate)
  {
    CertifiedBy(tcx, l, instance, d, c) && ChainStored(u, l.fns, live, c.chain)
  }

  /** The summary rests on an analysis with more than `depth` functions on its chain. */
  ghost predicate Certified(tcx: Tcx, u: Universe, l: Ledger, live: seq<PartialFunction>, depth: nat, instance: Instance, d: Domain) {
    u.stateOccurs(instance, d) && exists c :: Evident(tcx, u, l, live, instance, d, c) && |c.chain| > depth
  }

  /** `c` is such an analysis. */
  ghost predicate Certifies(tcx: Tcx, u: Universe, l: Ledger, live: seq<PartialFunction>, depth: nat, instance: Instance,
                            d: Domain, c: Certificate)
  {
    u.stateOccurs(instance, d) && Evident(tcx, u, l, live, instance, d, c) && |c.chain| > depth
  }

  lemma CertificateOf(tcx: Tcx, u: Universe, l: Ledger, live: seq<PartialFunction>, k: nat) returns (c: Certificate)
    requires StorageOk(tcx, u, l, live) && k < |l.fns| && l.fns[k].InfoWithBody?
    ensures Certifies(tcx, u, l, live, StoredDepth(live), l.fns[k].instance, DomainOf(l.fns[k]), c)
  {
    assert SummaryOk(tcx, u, l, live, StoredDepth(live), l.fns[k]);
    c :| Evident(tcx, u, l, live, l.fns[k].instance, DomainOf(l.fns[k]), c) && |c.chain| > StoredDepth(live);
  }

  /** A stored summary with a body carries the body that was analyzed, and its position. */
  lemma StoredSummaryHasItsBody(tcx: Tcx, u: Universe, l: Ledger, live: seq<PartialFunction>, k: nat)
    requires StorageOk(tcx, u, l, live) && k < |l.fns| && l.fns[k].InfoWithBody?
    ensures l.fns[k].body == tcx.bodyOf(l.fns[k].instance) && l.fns[k].span == tcx.bodyOf(l.fns[k].instance).span
  {
    assert SummaryOk(tcx, u, l, live, StoredDepth(live), l.fns[k]);
  }

  ghost predicate SummaryOk(tcx: Tcx, u: Universe, l: Ledger, live: seq<PartialFunction>, depth: nat, info: FunctionInfo) {
    info.InfoWithBody? ==>
      && info == SummaryOf(tcx, info.instance, DomainOf(info))
      && Certified(tcx, u, l, live, depth, info.instance, DomainOf(info))
  }

  /** While some analysis goes on, only nested ones have stored anything. */
  function StoredDepth(live: seq<PartialFunction>): nat {
    if live == [] then 0 else 1
  }

  /** Acyclic, without duplicates, and every summary certified; `live` are the analyses going on. */
  ghost predicate StorageOk(tcx: Tcx, u: Universe, l: Ledger, live: seq<PartialFunction>) {
    && Ordered(l.fns)
    && NoDuplicates(l.fns)
    && forall k {:trigger SummaryOk(tcx, u, l, live, StoredDepth(live), l.fns[k])} | 0 <= k < |l.fns| :: SummaryOk(tcx, u, l, live, StoredDepth(live), l.fns[k])
  }

  /** The analyses that ended meanwhile have stored a summary. */
  ghost predicate Ended(fns: seq<FunctionInfo>, live: seq<PartialFunction>, live': seq<PartialFunction>) {
    forall g | g in live :: g in live' || HasSummary(fns, g.instance)
  }

  lemma CertifiedIsStable(tcx: Tcx, u: Universe, l: Ledger, l': Ledger, live: seq<PartialFunction>,
                          live': seq<PartialFunction>, depth: nat, instance: Instance, d: Domain)
    requires Extended(l, l') && Ended(l'.fns, live, live')
    requires Certified(tcx, u, l, live, depth, instance, d)
    ensures Certified(tcx, u, l', live', depth, instance, d)
  {
    var c :| Evident(tcx, u, l, live, instance, d, c) && |c.chain| > depth;
    CertificateIsStable(tcx, l, l', instance, d, c);
    forall g | g in c.chain
      ensures LiveOrStored(u, l'.fns, live', g)
    {
      assert LiveOrStored(u, l.fns, live, g);
      if g !in live {
        FindIsStable(l.fns, l'.fns, WithBody(g.instance, []));
      }
    }
    assert Evident(tcx, u, l', live', instance, d, c);
  }

  /** Storing a certified summary whose calls can be looked up keeps all of it. Analyses of this
      instance may end by that. */
  lemma InsertKeepsStorage(tcx: Tcx, u: Universe, l: Ledger, live: seq<PartialFunction>, live': seq<PartialFunction>,
                           info: FunctionInfo)
    requires StorageOk(tcx, u, l, live) && StoredDepth(live') <= StoredDepth(live)
    requires Resolvable(l.fns, info.Calls()) && SummaryOk(tcx, u, l, live, StoredDepth(live'), info)
    requires Ended(Inserted(l.fns, info), live, live')
    ensures StorageOk(tcx, u, l.(fns := Inserted(l.fns, info)), live')
    ensures Extended(l, l.(fns := Inserted(l.fns, info))) && Contains(Inserted(l.fns, info), info)
  {
    InsertKeepsOrder(l.fns, info);
    var l' := l.(fns := Inserted(l.fns, info));
    forall k | 0 <= k < |l'.fns|
      ensures SummaryOk(tcx, u, l', live', StoredDepth(live'), l'.fns[k])
    {
      var stored := l'.fns[k];
      assert SummaryOk(tcx, u, l, live, StoredDepth(live'), stored) by {
        if k < |l.fns| {
          assert stored == l.fns[k] && SummaryOk(tcx, u, l, live, StoredDepth(live), l.fns[k]);
        }
      }
      if stored.InfoWithBody? {
        CertifiedIsStable(tcx, u, l, l', live, live', StoredDepth(live'), stored.instance, DomainOf(stored));
      }
    }
  }

  lemma SummaryIsStable(tcx: Tcx, u: Universe, l: Ledger, l': Ledger, live: seq<PartialFunction>,
                        live': seq<PartialFunction>, k: nat)
    requires StorageOk(tcx, u, l, live) && Extended(l, l') && k < |l.fns|
    requires Ended(l'.fns, live, live') && StoredDepth(live') <= StoredDepth(live)
    ensures SummaryOk(tcx, u, l', live', StoredDepth(live'), l.fns[k])
  {
    var stored := l.fns[k];
    assert SummaryOk(tcx, u, l, live, StoredDepth(live), l.fns[k]);
    if stored.InfoWithBody? {
      CertifiedIsStable(tcx, u, l, l', live, live', StoredDepth(live), stored.instance, DomainOf(stored));
    }
  }

  /** Closure updates, and analyses that start, leave the storage as it is. */
  lemma StorageIsStable(tcx: Tcx, u: Universe, l: Ledger, l': Ledger, live: seq<PartialFunction>, live': seq<PartialFunction>)
    requires StorageOk(tcx, u, l, live) && Extended(l, l') && l'.fns == l.fns
    requires Ended(l.fns, live, live') && (StoredDepth(live') <= StoredDepth(live) || l.fns == [])
    ensures StorageOk(tcx, u, l', live')
  {
    forall k | 0 <= k < |l'.fns|
      ensures SummaryOk(tcx, u, l', live', StoredDepth(live'), l'.fns[k])
    {
      SummaryIsStable(tcx, u, l, l', live, live', k);
    }
  }

  /** Storing what a memo lookup returned changes nothing. */
  lemma MemoInsertIsIdentity(tcx: Tcx, u: Universe, l: Ledger, live: seq<PartialFunction>, k: nat)
    requires StorageOk(tcx, u, l, live) && k < |l.fns| && l.fns[k].InfoWithBody?
    ensures Inserted(l.fns, SummaryOf(tcx, l.fns[k].instance, DomainOf(l.fns[k]))) == l.fns
  {
    assert SummaryOk(tcx, u, l, live, StoredDepth(live), l.fns[k]);
    assert SameInfo(l.fns[k], l.fns[k]);
  }

  /** The invariant of a collection: `frames` are the analyses below the present one, `live` those
      that have not stored a summary yet. */
  ghost predicate Sane(tcx: Tcx, u: Universe, l: Ledger, closures: Closures, frames: seq<PartialFunction>,
                       live: seq<PartialFunction>)
  {
    && ClosedUniverse(tcx, u)
    && IsChain(tcx, l, frames)
    && (forall g | g in frames :: u.occurs(g))
    && StorageOk(tcx, u, l, live)
    && Replay(map[], l.history) == Some(closures)
    && u.closuresOccur(closures)
  }

  lemma SaneAfterInsert(tcx: Tcx, u: Universe, l: Ledger, closures: Closures, frames: seq<PartialFunction>,
                        frames': seq<PartialFunction>, live: seq<PartialFunction>, live': seq<PartialFunction>, info: FunctionInfo)
    requires Sane(tcx, u, l, closures, frames, live) && StoredDepth(live') <= StoredDepth(live) && frames' <= frames
    requires Resolvable(l.fns, info.Calls()) && SummaryOk(tcx, u, l, live, StoredDepth(live'), info)
    requires Ended(Inserted(l.fns, info), live, live')
    ensures var l' := l.(fns := Inserted(l.fns, info));
            Sane(tcx, u, l', closures, frames', live') && Extended(l, l') && Contains(l'.fns, info)
  {
    InsertKeepsStorage(tcx, u, l, live, live', info);
    ChainIsStable(tcx, l, l.(fns := Inserted(l.fns, info)), frames);
    ChainPrefix(tcx, l.(fns := Inserted(l.fns, info)), frames, |frames'|);
    assert frames[..|frames'|] == frames';
  }

  /** Storing what the innermost analysis found ends it. */
  lemma SaneAfterAnalysis(tcx: Tcx, u: Universe, l: Ledger, closures: Closures, frames: seq<PartialFunction>,
                          g: PartialFunction, d: Domain, c: Certificate)
    requires Sane(tcx, u, l, closures, frames + [g], frames + [g])
    requires Certifies(tcx, u, l, frames + [g], StoredDepth(frames), g.instance, d, c) && Resolvable(l.fns, d.calls)
    ensures var l' := l.(fns := Inserted(l.fns, SummaryOf(tcx, g.instance, d)));
            && Sane(tcx, u, l', closures, frames, frames) && Extended(l, l')
            && Contains(l'.fns, SummaryOf(tcx, g.instance, d)) && HasSummary(l'.fns, g.instance)
  {
    var info := SummaryOf(tcx, g.instance, d);
    assert DomainOf(info) == d;
    InsertedAnswers(l.fns, info, WithBody(g.instance, []));
    assert frames <= frames + [g];
    SaneAfterInsert(tcx, u, l, closures, frames + [g], frames, frames + [g], frames, info);
  }

  lemma SaneAfterClosures(tcx: Tcx, u: Universe, l: Ledger, l': Ledger, closures: Closures, closures': Closures,
                          frames: seq<PartialFunction>)
    requires Sane(tcx, u, l, closures, frames, frames) && Extended(l, l') && l'.fns == l.fns
    requires Replay(map[], l'.history) == Some(closures') && u.closuresOccur(closures')
    ensures Sane(tcx, u, l', closures', frames, frames)
  {
    ChainIsStable(tcx, l, l', frames);
    StorageIsStable(tcx, u, l, l', frames, frames);
  }

  /** A further analysis starts. */
  lemma SaneAfterEntering(tcx: Tcx, u: Universe, l: Ledger, closures: Closures, frames: seq<PartialFunction>, g: PartialFunction)
    requires Sane(tcx, u, l, closures, frames, frames) && MayFollow(tcx, l, frames, g) && u.occurs(g)
    requires frames == [] ==> l.fns == []
    ensures Sane(tcx, u, l, closures, frames + [g], frames + [g])
  {
    ChainGrows(tcx, l, frames, g);
    StorageIsStable(tcx, u, l, l, frames, frames + [g]);
  }

  // ---------------------------------------------------------------------------------------
  // Inner runs of the origin

  /** No other item of the recursion guard has the definition of the origin. */
  ghost predicate OriginIsUnique(u: Universe, origin: Instance) {
    forall i, j | i in u.items && j in u.items && i.did == origin.did && j.did == origin.did :: i == j
  }

  /** If the origin's instance has a summary while its own run goes on, it is one of an inner run with
      other tracked arguments. */
  lemma EarlySummaryIsAnInnerRuns(tcx: Tcx, u: Universe, l: Ledger, live: seq<PartialFunction>, k: nat)
    requires ClosedUniverse(tcx, u) && StorageOk(tcx, u, l, live) && live != []
    requires k < |l.fns| && l.fns[k].InfoWithBody? && l.fns[k].instance == l.origin
    ensures exists c :: Evident(tcx, u, l, live, l.origin, DomainOf(l.fns[k]), c)
                        && |c.chain| > 1 && c.Function().trackedArgs != OriginArgs(tcx, l.origin)
    ensures !OriginIsUnique(u, l.origin)
  {
    assert SummaryOk(tcx, u, l, live, StoredDepth(live), l.fns[k]);
    var c :| Evident(tcx, u, l, live, l.origin, DomainOf(l.fns[k]), c) && |c.chain| > 1;
    var n := |c.chain| - 1;
    assert StackOf(c.chain)[0] != StackOf(c.chain)[n];
    assert LiveOrStored(u, l.fns, live, c.chain[0]) && FunctionStays(tcx, u, c.chain[0]);
    assert LiveOrStored(u, l.fns, live, c.chain[n]) && FunctionStays(tcx, u, c.chain[n]);
  }
}
