/** Places that nothing in a body writes or propagates to: their tracked types are in the summary what they
    were when the analysis started. A closure's captured variables are such places as a rule. */
module UntouchedPlaces {
  import opened Options
  import opened Types
  import opened TrackedTypes
  import opened Mir
  import opened Domains
  import opened CollectorDomains
  import opened ProjectionClosure
  import opened Transfers
  import opened Dataflow
  import opened ClosureStorage
  import opened Resolution
  import opened Evidence
  import opened TypeSoundness

  /** Writing to `p` may update what is tracked for `q`. */
  ghost predicate Touches(tcx: Tcx, body: Body, p: Place, q: Place) {
    q == p || q in tcx.interiorPaths(body, p) || q == DerefOf(p)
  }

  ghost predicate StatementTouches(tcx: Tcx, body: Body, stmt: Statement, q: Place) {
    stmt.Assign? && Touches(tcx, body, stmt.place, q)
  }

  ghost predicate DestinationTouches(tcx: Tcx, body: Body, destination: Option<Place>, q: Place) {
    destination.Some? && Touches(tcx, body, destination.value, q)
  }

  /** No statement and no call of the body touches the place. */
  ghost predicate Untouched(tcx: Tcx, body: Body, q: Place) {
    forall b {:trigger body.blocks[b]} | 0 <= b < |body.blocks| ::
      && (forall stmt | stmt in body.blocks[b].statements :: !StatementTouches(tcx, body, stmt, q))
      && !DestinationTouches(tcx, body, Destination(body.blocks[b].terminator), q)
  }

  /** The same is tracked for the place in both states. */
  predicate SameAt(d: Domain, d': Domain, q: Place) {
    q in d.places && q in d'.places && d.places[q] == d'.places[q]
  }

  lemma UpdateLeaves(tcx: Tcx, body: Body, d: Domain, p: Place, t: TrackedTy, q: Place)
    requires Update(tcx, body, d, p, t).Some? && !Touches(tcx, body, p, q) && q in d.places
    ensures SameAt(d, Update(tcx, body, d, p, t).value, q)
  {
    UpdateAt(tcx, body, d, p, t, q);
  }

  lemma {:induction false} StatementsLeave(tcx: Tcx, body: Body, substs: seq<Ty>, d: Domain, stmts: seq<Statement>, q: Place)
    requires AfterStatements(tcx, body, substs, d, stmts).Some? && q in d.places
    requires forall stmt | stmt in stmts :: !StatementTouches(tcx, body, stmt, q)
    ensures SameAt(d, AfterStatements(tcx, body, substs, d, stmts).value, q)
    decreases |stmts|
  {
    if stmts != [] {
      var stmt := stmts[0];
      assert stmt in stmts && !StatementTouches(tcx, body, stmt, q);
      if stmt.Assign? {
        UpdateLeaves(tcx, body, d, stmt.place, RvalueTracked(tcx, body, substs, d, stmt.rvalue).value, q);
      }
      StatementsLeave(tcx, body, substs, StatementEffect(tcx, body, substs, d, stmt).value, stmts[1..], q);
    }
  }

  lemma {:induction false} EffectsLeave(tcx: Tcx, body: Body, d: Domain, destination: Option<Place>, es: seq<CallEffect>, q: Place)
    requires ApplyEffects(tcx, body, d, destination, es).Some? && q in d.places
    requires !DestinationTouches(tcx, body, destination, q)
    ensures SameAt(d, ApplyEffects(tcx, body, d, destination, es).value, q)
    decreases |es|
  {
    if es != [] {
      var init, e := es[..|es| - 1], es[|es| - 1];
      EffectsLeave(tcx, body, d, destination, init, q);
      var m := ApplyEffects(tcx, body, d, destination, init).value;
      if e.Called? && e.returned.Some? && destination.Some? {
        UpdateLeaves(tcx, body, m.(calls := m.calls + {e.call}), destination.value, e.returned.value, q);
      }
    }
  }

  lemma StepLeaves(e: Setting, s: Step, q: Place)
    requires ValidStep(e, s) && Untouched(e.tcx, e.body, q) && q in s.input.places
    ensures SameAt(s.input, s.output, q)
  {
    var block := e.body.blocks[s.block];
    StatementsLeave(e.tcx, e.body, e.substs, s.input, block.statements, q);
    EffectsLeave(e.tcx, e.body, AfterStatements(e.tcx, e.body, e.substs, s.input, block.statements).value, Destination(block.terminator),
                 s.effects, q);
  }

  lemma JoinLeaves(d: Domain, a: Domain, b: Domain, q: Place)
    requires SameAt(d, a, q) && SameAt(d, b, q)
    ensures SameAt(d, JoinDomains(a, b), q)
  {
    JoinLaws(d.places[q], d.places[q]);
  }

  lemma {:induction false} EntriesLeave(e: Setting, trace: seq<Step>, b: nat, q: Place)
    requires IsRun(e, trace) && Untouched(e.tcx, e.body, q) && q in e.bottom.places && b < |e.body.blocks|
    ensures SameAt(e.bottom, Entries(e, trace)[b], q)
    decreases |trace|
  {
    if trace != [] {
      var n := |trace| - 1;
      PrefixIsRun(e, trace, n);
      EntriesLeave(e, trace[..n], b, q);
      assert StepOk(e, trace, n);
      EntriesLeave(e, trace[..n], trace[n].block, q);
      StepLeaves(e, trace[n], q);
      LastStep(e, trace, b);
      JoinLeaves(e.bottom, Entries(e, trace[..n])[b], trace[n].output, q);
    }
  }

  lemma {:induction false} JoinAllLeaves(d: Domain, ends: seq<Step>, q: Place)
    requires ends != [] && forall b | 0 <= b < |ends| :: SameAt(d, ends[b].output, q)
    ensures SameAt(d, JoinAll(ends), q)
    decreases |ends|
  {
    if |ends| > 1 {
      JoinAllLeaves(d, ends[..|ends| - 1], q);
      JoinLeaves(d, JoinAll(ends[..|ends| - 1]), ends[|ends| - 1].output, q);
    }
  }

  /** What a summary tracks for an untouched place is what was tracked there when the analysis started. */
  lemma SummaryLeaves(tcx: Tcx, l: Ledger, instance: Instance, d: Domain, c: Certificate, q: Place)
    requires CertifiedBy(tcx, l, instance, d, c) && Untouched(tcx, tcx.bodyOf(instance), q)
    requires q in Bottom(tcx, c.Function()).value.places
    ensures SameAt(Bottom(tcx, c.Function()).value, d, q)
  {
    var e, ends := SettingOf(tcx, c.Function()), c.ends.steps;
    forall b | 0 <= b < |ends| ensures SameAt(e.bottom, ends[b].output, q) {
      EntriesLeave(e, c.run.steps, b, q);
      StepLeaves(e, ends[b], q);
    }
    JoinAllLeaves(e.bottom, ends, q);
  }

  /** A type captured by a closure, at any time, is admitted by a stored summary of the closure exactly if it was
      tracked when the analysis behind the summary started: the summary does not see captures from later on,
      though the closure storage has them. */
  lemma CaptureIsSeenExactly(tcx: Tcx, l: Ledger, closures: Closures, instance: Instance, d: Domain, c: Certificate,
                             captured: Event, k: nat, ty: Ty)
    requires CertifiedBy(tcx, l, instance, d, c) && c.Function().ClosureFunction?
    requires Replay(map[], l.history) == Some(closures) && captured in l.history
    requires captured.ty.head.Closure? && k < |captured.upvars| && captured.upvars[k].Erased? && ty in captured.upvars[k].deps
    requires var q := UpvarPlace(tcx, tcx.bodyOf(instance), k);
             Untouched(tcx, tcx.bodyOf(instance), q) && q in Bottom(tcx, c.Function()).value.places
    ensures var did := captured.ty.head.did;
            did in closures && k < |closures[did].upvars| && Keeps(closures[did].upvars[k], captured.upvars[k])
    ensures var q := UpvarPlace(tcx, tcx.bodyOf(instance), k);
            q in d.places && (Admits(d.places[q], ty) <==> Admits(Bottom(tcx, c.Function()).value.places[q], ty))
  {
    CapturesAreKept(l.history, captured, captured.ty.head.did);
    SummaryLeaves(tcx, l, instance, d, c, UpvarPlace(tcx, tcx.bodyOf(instance), k));
  }
}
